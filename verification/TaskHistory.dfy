/** What the runs of Sched mean to the tasks: a record kept beside a run, read off the
    calls made and the program points passed, and the theorems that the kernel's own
    state always agrees with it. */
module TaskHistory {
  import opened Frames
  import opened Sched

  /** The life of a task slot: unused, or taken by a fork of the task in slot parent
      (none for the first task), and then dead until its parent collects it. */
  datatype Life = Empty | Alive(parent: Option<nat>) | Dead(parent: Option<nat>)

  /** life: of each slot; call: what each task asked for last; got: the child that its
      wait has collected; want: the channel it last went to sleep on; wake: the channel
      last woken; looked: the slots the scheduler has looked at since its loop began. */
  datatype Past = Past(life: seq<Life>, call: seq<Act>, got: seq<Option<nat>>, want: seq<Option<Chan>>,
                       wake: Option<Chan>, looked: set<nat>)

  predicate Wide(p: Past) { |p.life| == |p.call| == |p.got| == |p.want| == NT }

  function Begin(): Past {
    Past(seq(NT, i => if i == 0 then Alive(None) else Empty), seq(NT, _ => Stay), seq(NT, _ => None), seq(NT, _ => None), None, {})
  }

  /** Task i made a step by act a and is now at to. */
  function NoteTask(p: Past, i: nat, a: Act, from: Pc, to: Pc): Past
    requires Wide(p) && i < NT
  {
    match from
    case User => if to.User? then p else p.(call := p.call[i := a])
    case InDev(_) =>
      if a.SleepOn? then p.(want := p.want[i := Some(a.chan)]) else if a.Wake? then p.(wake := Some(a.chan)) else p
    case ForkAt(_) => if to.ForkInit? && to.child < NT then p.(life := p.life[to.child := Alive(Some(i))]) else p
    case ExitCall =>
      if p.life[i].Alive? && p.life[i].parent.Some? then p.(wake := Some(TaskChan(p.life[i].parent.value))) else p
    case ExitOwn => if p.life[i].Alive? then p.(life := p.life[i := Dead(p.life[i].parent)]) else p
    case WaitCall => p.(got := p.got[i := None])
    case WaitScan(_, _) => if to.SleepCall? then p.(want := p.want[i := Some(TaskChan(i))]) else p
    case WaitAt(_, _) =>
      if to.WaitGot? && to.child < NT then p.(life := p.life[to.child := Empty], got := p.got[i := Some(to.child)]) else p
    case _ => p
  }

  function NoteSched(p: Past, a: Act, from: SchedPc, to: SchedPc): Past {
    if from.Irq? && a.Wake? then p.(wake := Some(a.chan))
    else if from.Top? then p.(looked := {})
    else if to.At? then p.(looked := p.looked + {to.k})
    else p
  }

  function Note(p: Past, s: State, a: Act, s': State): (p': Past)
    requires Wide(p) && Shape(s) && Shape(s')
    ensures Wide(p')
  {
    if s.cpu.AtScheduler? then NoteSched(p, a, s.spc, s'.spc)
    else if s.cpu.slot < NT then NoteTask(p, s.cpu.slot, a, s.pc[s.cpu.slot], s'.pc[s.cpu.slot])
    else p
  }

  /** The record of a run. */
  function Story(acts: seq<Act>): (p: Past)
    ensures Wide(p)
  {
    if acts == [] then Begin()
    else
      var before := acts[..|acts| - 1];
      if Run(before).Ok? && Shape(Run(before).s) && Run(acts).Ok? && Shape(Run(acts).s) then
        Note(Story(before), Run(before).s, acts[|acts| - 1], Run(acts).s)
      else Story(before)
  }

  // ----------------------------------------------- the kernel's state and the record

  /** The slot that the running fork has taken but not yet linked to its parent. */
  function Linking(s: State): Option<nat>
    requires Shape(s)
  {
    if s.cpu.AtTask? && s.cpu.slot < NT then
      match s.pc[s.cpu.slot]
      case ForkInit(c) => Some(c)
      case ForkReady(c) => Some(c)
      case ForkLink(c) => Some(c)
      case _ => None
    else None
  }

  /** The slot that the running fork has taken. */
  function Forking(s: State): Option<nat>
    requires Shape(s)
  {
    if s.cpu.AtTask? && s.cpu.slot < NT then
      match s.pc[s.cpu.slot]
      case ForkInit(c) => Some(c)
      case ForkReady(c) => Some(c)
      case ForkLink(c) => Some(c)
      case ForkLinked(c) => Some(c)
      case ForkDone(c) => Some(c)
      case _ => None
    else None
  }

  ghost predicate LifeOk(s: State, p: Past, c: nat)
    requires Shape(s) && Wide(p) && c < NT
  {
    && (s.st[c].Free? <==> p.life[c].Empty?)
    && (s.st[c].Zombie? <==> p.life[c].Dead?)
    && s.parent[c] == if p.life[c].Empty? || Linking(s) == Some(c) then None else p.life[c].parent
  }

  function CallWith(lk: Lock): Act { if lk.DevLock? then UseDev(lk.dev) else Wait }

  /** The call that a program point belongs to. */
  function CallAt(pc: Pc): Option<Act> {
    match pc
    case InDev(d) => Some(UseDev(d))
    case DevWake(d, _, _) => Some(UseDev(d))
    case DevWakeAt(d, _, _) => Some(UseDev(d))
    case SleepCall(lk, _) => Some(CallWith(lk))
    case SleepOwn(lk, _) => Some(CallWith(lk))
    case SleepLet(lk, _) => Some(CallWith(lk))
    case SleepSet(lk, _) => Some(CallWith(lk))
    case Parked(lk, _) => Some(CallWith(lk))
    case SleepBack(lk) => Some(CallWith(lk))
    case SleepClear(lk) => Some(CallWith(lk))
    case SleepRetake(lk) => Some(CallWith(lk))
    case YieldOwn => Some(Yield)
    case YieldSet => Some(Yield)
    case Yielded => Some(Yield)
    case YieldBack => Some(Yield)
    case ForkScan(_) => Some(Act.Fork)
    case ForkAt(_) => Some(Act.Fork)
    case ForkInit(_) => Some(Act.Fork)
    case ForkReady(_) => Some(Act.Fork)
    case ForkLink(_) => Some(Act.Fork)
    case ForkLinked(_) => Some(Act.Fork)
    case ForkDone(_) => Some(Act.Fork)
    case ExitCall => Some(Act.Exit)
    case ExitWake(_) => Some(Act.Exit)
    case ExitWakeAt(_) => Some(Act.Exit)
    case ExitOwn => Some(Act.Exit)
    case ExitLeave => Some(Act.Exit)
    case ExitOff => Some(Act.Exit)
    case WaitCall => Some(Wait)
    case WaitScan(_, _) => Some(Wait)
    case WaitAt(_, _) => Some(Wait)
    case WaitGot(_) => Some(Wait)
    case WaitDone(_) => Some(Wait)
    case _ => None
  }

  /** The channel a task has asked to sleep on. */
  function ChanAt(pc: Pc): Option<Chan> {
    match pc
    case SleepCall(_, c) => Some(c)
    case SleepOwn(_, c) => Some(c)
    case SleepLet(_, c) => Some(c)
    case SleepSet(_, c) => Some(c)
    case Parked(_, c) => Some(c)
    case _ => None
  }

  /** What wait has collected by a program point, if the point is inside wait. */
  function GotAt(pc: Pc): Option<Option<nat>> {
    match CallAt(pc)
    case Some(Wait) =>
      (match pc
       case WaitCall => None
       case WaitGot(c) => Some(Some(c))
       case WaitDone(answer) => Some(answer)
       case _ => Some(None))
    case _ => None
  }

  ghost predicate TaskOk(s: State, p: Past, i: nat)
    requires Shape(s) && Wide(p) && i < NT
  {
    && (CallAt(s.pc[i]).Some? ==> p.call[i] == CallAt(s.pc[i]).value)
    && (ChanAt(s.pc[i]).Some? ==> p.want[i] == ChanAt(s.pc[i]))
    && (GotAt(s.pc[i]).Some? ==> p.got[i] == GotAt(s.pc[i]).value)
  }

  /** The channel being woken. */
  function WakeAt(s: State): Option<Chan>
    requires Shape(s)
  {
    if s.cpu.AtScheduler? then (if s.spc.IrqWake? || s.spc.IrqWakeAt? then Some(s.spc.chan) else None)
    else if s.cpu.slot >= NT then None
    else
      match s.pc[s.cpu.slot]
      case DevWake(_, c, _) => Some(c)
      case DevWakeAt(_, c, _) => Some(c)
      case ExitWake(_) => if s.parent[s.cpu.slot].Some? then Some(TaskChan(s.parent[s.cpu.slot].value)) else None
      case ExitWakeAt(_) => if s.parent[s.cpu.slot].Some? then Some(TaskChan(s.parent[s.cpu.slot].value)) else None
      case _ => None
  }

  /** How many slots fork has found taken. */
  function Tried(s: State): nat
    requires Shape(s)
  {
    if s.cpu.AtTask? && s.cpu.slot < NT then
      match s.pc[s.cpu.slot]
      case ForkScan(k) => k
      case ForkAt(k) => k
      case ForkInit(c) => c
      case _ => 0
    else 0
  }

  /** How many slots the scheduler has looked at. */
  function Seen(spc: SchedPc): nat {
    match spc
    case Scan(k) => k
    case At(k) => k + 1
    case Out(k) => k + 1
    case Back(k) => k + 1
    case Done(k) => k + 1
    case _ => 0
  }

  ghost predicate FlowOk(s: State, p: Past)
    requires Shape(s) && Wide(p)
  {
    && (WakeAt(s).Some? ==> p.wake == WakeAt(s))
    && (Forking(s).Some? ==> Forking(s).value < NT && p.life[Forking(s).value] == Alive(Some(s.cpu.slot)))
    && (forall j :: 0 <= j < NT && j < Tried(s) ==> !s.st[j].Free?)
    && (forall j :: 0 <= j < Seen(s.spc) ==> j in p.looked)
  }

  ghost predicate Recorded(s: State, p: Past)
    requires Shape(s) && Wide(p)
  {
    && (forall c :: 0 <= c < NT ==> LifeOk(s, p, c))
    && (forall i :: 0 <= i < NT ==> TaskOk(s, p, i))
    && FlowOk(s, p)
  }

  // -------------------------------------------------------------- every step

  /** The groups of program points. */
  predicate ForkPoint(pc: Pc) {
    pc.ForkScan? || pc.ForkAt? || pc.ForkInit? || pc.ForkReady? || pc.ForkLink? || pc.ForkLinked? || pc.ForkDone?
  }

  predicate ExitPoint(pc: Pc) {
    pc.ExitCall? || pc.ExitWake? || pc.ExitWakeAt? || pc.ExitOwn? || pc.ExitLeave? || pc.ExitOff?
  }

  predicate WaitPoint(pc: Pc) { pc.WaitCall? || pc.WaitScan? || pc.WaitAt? || pc.WaitGot? || pc.WaitDone? }

  predicate DevPoint(pc: Pc) { pc.InDev? || pc.DevWake? || pc.DevWakeAt? }

  predicate SleepPoint(pc: Pc) {
    pc.SleepCall? || pc.SleepOwn? || pc.SleepLet? || pc.SleepSet? || pc.SleepBack? || pc.SleepClear? || pc.SleepRetake?
  }

  predicate YieldPoint(pc: Pc) { pc.YieldOwn? || pc.YieldSet? || pc.YieldBack? }

  /** Task i is about to make a step. */
  ghost predicate Running(s: State, p: Past, i: nat) {
    && Shape(s) && Wide(p) && i < NT && s.cpu == AtTask(i) && s.spc == Out(i) && !Away(s.pc[i])
    && LifeOk(s, p, i) && TaskOk(s, p, i) && FlowOk(s, p) && SlotOk(i, s.pc[i], s.st[i], s.chan[i]) && Scene(s, i)
  }

  /** It leaves the other slots, the scheduler's place and the CPU alone. */
  lemma LifeSame(s: State, p: Past, s': State, p': Past, c: nat)
    requires Shape(s) && Shape(s') && Wide(p) && Wide(p') && c < NT && LifeOk(s, p, c)
    requires (s'.st[c].Free? <==> s.st[c].Free?) && (s'.st[c].Zombie? <==> s.st[c].Zombie?)
    requires s'.parent[c] == s.parent[c] && p'.life[c] == p.life[c] && (Linking(s') == Some(c) <==> Linking(s) == Some(c))
    ensures LifeOk(s', p', c)
  {}

  /** Outside fork and the wakeups nothing more is promised. */
  lemma QuietFlow(s: State, p: Past, s': State, p': Past)
    requires Shape(s) && Shape(s') && Wide(p) && Wide(p') && FlowOk(s, p) && p'.looked == p.looked && Seen(s'.spc) == Seen(s.spc)
    requires WakeAt(s').None? && Forking(s').None? && Tried(s') == 0
    ensures FlowOk(s', p')
  {}

  predicate Quiet(pc: Pc) { WaitPoint(pc) || SleepPoint(pc) || YieldPoint(pc) || pc.User? || pc.InDev? || pc.Start? }

  lemma QuietMeans(s: State, i: nat)
    requires Shape(s) && i < NT && ((s.cpu == AtTask(i) && Quiet(s.pc[i])) || (s.cpu.AtScheduler? && s.spc.Back?))
    ensures WakeAt(s).None? && Forking(s).None? && Tried(s) == 0
  {}

  ghost predicate Kept(s: State, p: Past, i: nat, a: Act, s': State)
    requires Shape(s) && i < NT && Shape(s') && Wide(p)
  {
    Recorded(s', NoteTask(p, i, a, s.pc[i], s'.pc[i]))
  }

  /** The record of another task does not change. */
  lemma NoteElsewhere(p: Past, i: nat, a: Act, from: Pc, to: Pc, c: nat)
    requires Wide(p) && i < NT && c < NT && c != i
    ensures var p' := NoteTask(p, i, a, from, to); p'.call[c] == p.call[c] && p'.want[c] == p.want[c] && p'.got[c] == p.got[c]
  {}

  lemma TaskSame(s: State, p: Past, s': State, p': Past, c: nat)
    requires Shape(s) && Shape(s') && Wide(p) && Wide(p') && c < NT && TaskOk(s, p, c)
    requires s'.pc[c] == s.pc[c] || s'.pc[c].Fresh?
    requires p'.call[c] == p.call[c] && p'.want[c] == p.want[c] && p'.got[c] == p.got[c]
    ensures TaskOk(s', p', c)
  {}

  /** What each kind of program point promises. */
  lemma PointsMean(pc: Pc)
    ensures ForkPoint(pc) ==> CallAt(pc) == Some(Act.Fork) && ChanAt(pc).None? && GotAt(pc).None?
    ensures ExitPoint(pc) ==> CallAt(pc) == Some(Act.Exit) && ChanAt(pc).None? && GotAt(pc).None?
    ensures WaitPoint(pc) ==> CallAt(pc) == Some(Wait) && ChanAt(pc).None?
    ensures pc.User? || pc.Gone? || pc.Start? || pc.Fresh? ==> CallAt(pc).None? && ChanAt(pc).None? && GotAt(pc).None?
  {}

  lemma DevLife(s: State, p: Past, i: nat, a: Act, c: nat)
    requires Running(s, p, i) && DevPoint(s.pc[i]) && DevStep(s, i, a).Ok? && Shape(DevStep(s, i, a).s) && c < NT
    requires LifeOk(s, p, c) && SlotOk(c, s.pc[c], s.st[c], s.chan[c])
    ensures LifeOk(DevStep(s, i, a).s, NoteTask(p, i, a, s.pc[i], DevStep(s, i, a).s.pc[i]), c)
  {
    var s' := DevStep(s, i, a).s;
    assert s'.parent == s.parent && (s'.st[c].Free? <==> s.st[c].Free?) && (s'.st[c].Zombie? <==> s.st[c].Zombie?);
    assert NoteTask(p, i, a, s.pc[i], DevStep(s, i, a).s.pc[i]).life == p.life && Linking(s).None? && Linking(s').None?;
    hide DevStep, NoteTask, Linking, LifeOk, Scene, TaskOk, FlowOk;
    LifeSame(s, p, s', NoteTask(p, i, a, s.pc[i], DevStep(s, i, a).s.pc[i]), c);
  }

  lemma DevSelf(s: State, p: Past, i: nat, a: Act)
    requires Running(s, p, i) && DevPoint(s.pc[i]) && DevStep(s, i, a).Ok? && Shape(DevStep(s, i, a).s)
    ensures TaskOk(DevStep(s, i, a).s, NoteTask(p, i, a, s.pc[i], DevStep(s, i, a).s.pc[i]), i)
    ensures forall c :: 0 <= c < NT && c != i ==> DevStep(s, i, a).s.pc[c] == s.pc[c] || DevStep(s, i, a).s.pc[c].Fresh?
  {
    hide Scene, FlowOk, LifeOk;
  }

  lemma DevFlow(s: State, p: Past, i: nat, a: Act)
    requires Running(s, p, i) && DevPoint(s.pc[i]) && DevStep(s, i, a).Ok? && Shape(DevStep(s, i, a).s)
    ensures FlowOk(DevStep(s, i, a).s, NoteTask(p, i, a, s.pc[i], DevStep(s, i, a).s.pc[i]))
  {
    hide TaskOk, NoZombie, HasChild, NoneOn, NoSleeper;
  }

  lemma DevKept(s: State, p: Past, i: nat, a: Act)
    requires Running(s, p, i) && DevPoint(s.pc[i]) && DevStep(s, i, a).Ok? && Shape(DevStep(s, i, a).s) && Slots(s) && Recorded(s, p)
    ensures Kept(s, p, i, a, DevStep(s, i, a).s)
  {
    var s' := DevStep(s, i, a).s;
    var p' := NoteTask(p, i, a, s.pc[i], s'.pc[i]);
    hide DevStep, NoteTask, LifeOk, TaskOk, FlowOk, Running, SlotOk;
    DevSelf(s, p, i, a);
    DevFlow(s, p, i, a);
    forall c | 0 <= c < NT
      ensures LifeOk(s', p', c) && TaskOk(s', p', c)
    {
      DevLife(s, p, i, a, c);
      if c != i {
        NoteElsewhere(p, i, a, s.pc[i], s'.pc[i], c);
        TaskSame(s, p, s', p', c);
      }
    }
  }

  lemma SleepLife(s: State, p: Past, i: nat, a: Act, c: nat)
    requires Running(s, p, i) && SleepPoint(s.pc[i]) && SleepStep(s, i).Ok? && Shape(SleepStep(s, i).s) && c < NT
    requires LifeOk(s, p, c) && SlotOk(c, s.pc[c], s.st[c], s.chan[c])
    ensures LifeOk(SleepStep(s, i).s, NoteTask(p, i, a, s.pc[i], SleepStep(s, i).s.pc[i]), c)
  {
    var s' := SleepStep(s, i).s;
    assert s'.parent == s.parent && (s'.st[c].Free? <==> s.st[c].Free?) && (s'.st[c].Zombie? <==> s.st[c].Zombie?);
    assert NoteTask(p, i, a, s.pc[i], SleepStep(s, i).s.pc[i]).life == p.life && Linking(s).None? && Linking(s').None?;
    hide SleepStep, NoteTask, Linking, LifeOk, Scene, TaskOk, FlowOk;
    LifeSame(s, p, s', NoteTask(p, i, a, s.pc[i], SleepStep(s, i).s.pc[i]), c);
  }

  lemma SleepSelf(s: State, p: Past, i: nat, a: Act)
    requires Running(s, p, i) && SleepPoint(s.pc[i]) && SleepStep(s, i).Ok? && Shape(SleepStep(s, i).s)
    ensures TaskOk(SleepStep(s, i).s, NoteTask(p, i, a, s.pc[i], SleepStep(s, i).s.pc[i]), i)
    ensures forall c :: 0 <= c < NT && c != i ==> SleepStep(s, i).s.pc[c] == s.pc[c] || SleepStep(s, i).s.pc[c].Fresh?
  {
    hide Scene, FlowOk, LifeOk;
  }

  lemma SleepFlow(s: State, p: Past, i: nat, a: Act)
    requires Running(s, p, i) && SleepPoint(s.pc[i]) && SleepStep(s, i).Ok? && Shape(SleepStep(s, i).s)
    ensures FlowOk(SleepStep(s, i).s, NoteTask(p, i, a, s.pc[i], SleepStep(s, i).s.pc[i]))
  {
    var s' := SleepStep(s, i).s;
    assert Quiet(s'.pc[i]) || s'.cpu.AtScheduler?;
    assert (s'.cpu == s.cpu && s'.spc == s.spc) || (s'.cpu.AtScheduler? && s'.spc == Back(i));
    assert NoteTask(p, i, a, s.pc[i], SleepStep(s, i).s.pc[i]).looked == p.looked;
    hide SleepStep, NoteTask, FlowOk, LifeOk, TaskOk, Scene, SlotOk;
    QuietMeans(s', i);
    QuietFlow(s, p, s', NoteTask(p, i, a, s.pc[i], SleepStep(s, i).s.pc[i]));
  }

  lemma SleepKept(s: State, p: Past, i: nat, a: Act)
    requires Running(s, p, i) && SleepPoint(s.pc[i]) && SleepStep(s, i).Ok? && Shape(SleepStep(s, i).s) && Slots(s) && Recorded(s, p)
    ensures Kept(s, p, i, a, SleepStep(s, i).s)
  {
    var s' := SleepStep(s, i).s;
    var p' := NoteTask(p, i, a, s.pc[i], s'.pc[i]);
    hide SleepStep, NoteTask, LifeOk, TaskOk, FlowOk, Running, SlotOk;
    SleepSelf(s, p, i, a);
    SleepFlow(s, p, i, a);
    forall c | 0 <= c < NT
      ensures LifeOk(s', p', c) && TaskOk(s', p', c)
    {
      SleepLife(s, p, i, a, c);
      if c != i {
        NoteElsewhere(p, i, a, s.pc[i], s'.pc[i], c);
        TaskSame(s, p, s', p', c);
      }
    }
  }

  lemma YieldLife(s: State, p: Past, i: nat, a: Act, c: nat)
    requires Running(s, p, i) && YieldPoint(s.pc[i]) && YieldStep(s, i).Ok? && Shape(YieldStep(s, i).s) && c < NT
    requires LifeOk(s, p, c) && SlotOk(c, s.pc[c], s.st[c], s.chan[c])
    ensures LifeOk(YieldStep(s, i).s, NoteTask(p, i, a, s.pc[i], YieldStep(s, i).s.pc[i]), c)
  {
    var s' := YieldStep(s, i).s;
    assert s'.parent == s.parent && (s'.st[c].Free? <==> s.st[c].Free?) && (s'.st[c].Zombie? <==> s.st[c].Zombie?);
    assert NoteTask(p, i, a, s.pc[i], YieldStep(s, i).s.pc[i]).life == p.life && Linking(s).None? && Linking(s').None?;
    hide YieldStep, NoteTask, Linking, LifeOk, Scene, TaskOk, FlowOk;
    LifeSame(s, p, s', NoteTask(p, i, a, s.pc[i], YieldStep(s, i).s.pc[i]), c);
  }

  lemma YieldSelf(s: State, p: Past, i: nat, a: Act)
    requires Running(s, p, i) && YieldPoint(s.pc[i]) && YieldStep(s, i).Ok? && Shape(YieldStep(s, i).s)
    ensures TaskOk(YieldStep(s, i).s, NoteTask(p, i, a, s.pc[i], YieldStep(s, i).s.pc[i]), i)
    ensures forall c :: 0 <= c < NT && c != i ==> YieldStep(s, i).s.pc[c] == s.pc[c] || YieldStep(s, i).s.pc[c].Fresh?
  {
    hide Scene, FlowOk, LifeOk;
  }

  lemma YieldFlow(s: State, p: Past, i: nat, a: Act)
    requires Running(s, p, i) && YieldPoint(s.pc[i]) && YieldStep(s, i).Ok? && Shape(YieldStep(s, i).s)
    ensures FlowOk(YieldStep(s, i).s, NoteTask(p, i, a, s.pc[i], YieldStep(s, i).s.pc[i]))
  {
    var s' := YieldStep(s, i).s;
    assert Quiet(s'.pc[i]) || s'.cpu.AtScheduler?;
    assert (s'.cpu == s.cpu && s'.spc == s.spc) || (s'.cpu.AtScheduler? && s'.spc == Back(i));
    assert NoteTask(p, i, a, s.pc[i], YieldStep(s, i).s.pc[i]).looked == p.looked;
    hide YieldStep, NoteTask, FlowOk, LifeOk, TaskOk, Scene, SlotOk;
    QuietMeans(s', i);
    QuietFlow(s, p, s', NoteTask(p, i, a, s.pc[i], YieldStep(s, i).s.pc[i]));
  }

  lemma YieldKept(s: State, p: Past, i: nat, a: Act)
    requires Running(s, p, i) && YieldPoint(s.pc[i]) && YieldStep(s, i).Ok? && Shape(YieldStep(s, i).s) && Slots(s) && Recorded(s, p)
    ensures Kept(s, p, i, a, YieldStep(s, i).s)
  {
    var s' := YieldStep(s, i).s;
    var p' := NoteTask(p, i, a, s.pc[i], s'.pc[i]);
    hide YieldStep, NoteTask, LifeOk, TaskOk, FlowOk, Running, SlotOk;
    YieldSelf(s, p, i, a);
    YieldFlow(s, p, i, a);
    forall c | 0 <= c < NT
      ensures LifeOk(s', p', c) && TaskOk(s', p', c)
    {
      YieldLife(s, p, i, a, c);
      if c != i {
        NoteElsewhere(p, i, a, s.pc[i], s'.pc[i], c);
        TaskSame(s, p, s', p', c);
      }
    }
  }

  lemma ForkLife(s: State, p: Past, i: nat, a: Act, c: nat)
    requires Running(s, p, i) && ForkPoint(s.pc[i]) && ForkStep(s, i).Ok? && Shape(ForkStep(s, i).s) && c < NT
    requires LifeOk(s, p, c) && SlotOk(c, s.pc[c], s.st[c], s.chan[c])
    ensures LifeOk(ForkStep(s, i).s, NoteTask(p, i, a, s.pc[i], ForkStep(s, i).s.pc[i]), c)
  {
    hide TaskOk, WakeAt, Tried, NoZombie, HasChild, NoneOn, NoSleeper;
  }

  lemma ForkSelf(s: State, p: Past, i: nat, a: Act)
    requires Running(s, p, i) && ForkPoint(s.pc[i]) && ForkStep(s, i).Ok? && Shape(ForkStep(s, i).s)
    ensures TaskOk(ForkStep(s, i).s, NoteTask(p, i, a, s.pc[i], ForkStep(s, i).s.pc[i]), i)
    ensures forall c :: 0 <= c < NT && c != i ==> ForkStep(s, i).s.pc[c] == s.pc[c] || ForkStep(s, i).s.pc[c].Fresh?
  {
    hide Scene, FlowOk, LifeOk, SlotOk, CallAt, ChanAt, GotAt;
    var to := ForkStep(s, i).s.pc[i];
    PointsMean(s.pc[i]);
    PointsMean(to);
    assert ForkPoint(to) || to.User?;
  }

  lemma ForkFlow(s: State, p: Past, i: nat, a: Act)
    requires Running(s, p, i) && ForkPoint(s.pc[i]) && ForkStep(s, i).Ok? && Shape(ForkStep(s, i).s)
    ensures FlowOk(ForkStep(s, i).s, NoteTask(p, i, a, s.pc[i], ForkStep(s, i).s.pc[i]))
  {
    hide TaskOk, NoZombie, HasChild, NoneOn, NoSleeper;
  }

  lemma ForkKept(s: State, p: Past, i: nat, a: Act)
    requires Running(s, p, i) && ForkPoint(s.pc[i]) && ForkStep(s, i).Ok? && Shape(ForkStep(s, i).s) && Slots(s) && Recorded(s, p)
    ensures Kept(s, p, i, a, ForkStep(s, i).s)
  {
    var s' := ForkStep(s, i).s;
    var p' := NoteTask(p, i, a, s.pc[i], s'.pc[i]);
    hide ForkStep, NoteTask, LifeOk, TaskOk, FlowOk, Running, SlotOk;
    ForkSelf(s, p, i, a);
    ForkFlow(s, p, i, a);
    forall c | 0 <= c < NT
      ensures LifeOk(s', p', c) && TaskOk(s', p', c)
    {
      ForkLife(s, p, i, a, c);
      if c != i {
        NoteElsewhere(p, i, a, s.pc[i], s'.pc[i], c);
        TaskSame(s, p, s', p', c);
      }
    }
  }

  lemma ExitLife(s: State, p: Past, i: nat, a: Act, c: nat)
    requires Running(s, p, i) && ExitPoint(s.pc[i]) && ExitStep(s, i).Ok? && Shape(ExitStep(s, i).s) && c < NT
    requires LifeOk(s, p, c) && SlotOk(c, s.pc[c], s.st[c], s.chan[c])
    ensures LifeOk(ExitStep(s, i).s, NoteTask(p, i, a, s.pc[i], ExitStep(s, i).s.pc[i]), c)
  {
    hide TaskOk, WakeAt, Tried, NoZombie, HasChild, NoneOn, NoSleeper;
  }

  lemma ExitSelf(s: State, p: Past, i: nat, a: Act)
    requires Running(s, p, i) && ExitPoint(s.pc[i]) && ExitStep(s, i).Ok? && Shape(ExitStep(s, i).s)
    ensures TaskOk(ExitStep(s, i).s, NoteTask(p, i, a, s.pc[i], ExitStep(s, i).s.pc[i]), i)
    ensures forall c :: 0 <= c < NT && c != i ==> ExitStep(s, i).s.pc[c] == s.pc[c] || ExitStep(s, i).s.pc[c].Fresh?
  {
    hide Scene, FlowOk, LifeOk, SlotOk, CallAt, ChanAt, GotAt;
    var to := ExitStep(s, i).s.pc[i];
    PointsMean(s.pc[i]);
    PointsMean(to);
    assert ExitPoint(to) || to.Gone?;
  }

  lemma ExitFlow(s: State, p: Past, i: nat, a: Act)
    requires Running(s, p, i) && ExitPoint(s.pc[i]) && ExitStep(s, i).Ok? && Shape(ExitStep(s, i).s)
    ensures FlowOk(ExitStep(s, i).s, NoteTask(p, i, a, s.pc[i], ExitStep(s, i).s.pc[i]))
  {
    hide TaskOk, NoZombie, HasChild, NoneOn, NoSleeper;
  }

  lemma ExitKept(s: State, p: Past, i: nat, a: Act)
    requires Running(s, p, i) && ExitPoint(s.pc[i]) && ExitStep(s, i).Ok? && Shape(ExitStep(s, i).s) && Slots(s) && Recorded(s, p)
    ensures Kept(s, p, i, a, ExitStep(s, i).s)
  {
    var s' := ExitStep(s, i).s;
    var p' := NoteTask(p, i, a, s.pc[i], s'.pc[i]);
    hide ExitStep, NoteTask, LifeOk, TaskOk, FlowOk, Running, SlotOk;
    ExitSelf(s, p, i, a);
    ExitFlow(s, p, i, a);
    forall c | 0 <= c < NT
      ensures LifeOk(s', p', c) && TaskOk(s', p', c)
    {
      ExitLife(s, p, i, a, c);
      if c != i {
        NoteElsewhere(p, i, a, s.pc[i], s'.pc[i], c);
        TaskSame(s, p, s', p', c);
      }
    }
  }

  lemma WaitLife(s: State, p: Past, i: nat, a: Act, c: nat)
    requires Running(s, p, i) && WaitPoint(s.pc[i]) && WaitStep(s, i).Ok? && Shape(WaitStep(s, i).s) && c < NT
    requires LifeOk(s, p, c) && SlotOk(c, s.pc[c], s.st[c], s.chan[c])
    ensures LifeOk(WaitStep(s, i).s, NoteTask(p, i, a, s.pc[i], WaitStep(s, i).s.pc[i]), c)
  {
    hide TaskOk, WakeAt, Tried, NoZombie, HasChild, NoneOn, NoSleeper;
  }

  lemma WaitTo(pc: Pc, i: nat)
    requires pc == SleepCall(WaitLock, TaskChan(i))
    ensures CallAt(pc) == Some(Wait) && ChanAt(pc) == Some(TaskChan(i)) && GotAt(pc) == Some(None)
  {}

  lemma WaitSelf(s: State, p: Past, i: nat, a: Act)
    requires Running(s, p, i) && WaitPoint(s.pc[i]) && WaitStep(s, i).Ok? && Shape(WaitStep(s, i).s)
    ensures TaskOk(WaitStep(s, i).s, NoteTask(p, i, a, s.pc[i], WaitStep(s, i).s.pc[i]), i)
    ensures forall c :: 0 <= c < NT && c != i ==> WaitStep(s, i).s.pc[c] == s.pc[c] || WaitStep(s, i).s.pc[c].Fresh?
  {
    hide Scene, FlowOk, LifeOk, SlotOk, CallAt, ChanAt;
    var to := WaitStep(s, i).s.pc[i];
    PointsMean(s.pc[i]);
    PointsMean(to);
    WaitTo(SleepCall(WaitLock, TaskChan(i)), i);
    assert WaitPoint(to) || to.User? || to == SleepCall(WaitLock, TaskChan(i));
  }

  lemma WaitFlow(s: State, p: Past, i: nat, a: Act)
    requires Running(s, p, i) && WaitPoint(s.pc[i]) && WaitStep(s, i).Ok? && Shape(WaitStep(s, i).s)
    ensures FlowOk(WaitStep(s, i).s, NoteTask(p, i, a, s.pc[i], WaitStep(s, i).s.pc[i]))
  {
    var s' := WaitStep(s, i).s;
    assert Quiet(s'.pc[i]) || s'.cpu.AtScheduler?;
    assert (s'.cpu == s.cpu && s'.spc == s.spc) || (s'.cpu.AtScheduler? && s'.spc == Back(i));
    assert NoteTask(p, i, a, s.pc[i], WaitStep(s, i).s.pc[i]).looked == p.looked;
    hide WaitStep, NoteTask, FlowOk, LifeOk, TaskOk, Scene, SlotOk;
    QuietMeans(s', i);
    QuietFlow(s, p, s', NoteTask(p, i, a, s.pc[i], WaitStep(s, i).s.pc[i]));
  }

  lemma WaitKept(s: State, p: Past, i: nat, a: Act)
    requires Running(s, p, i) && WaitPoint(s.pc[i]) && WaitStep(s, i).Ok? && Shape(WaitStep(s, i).s) && Slots(s) && Recorded(s, p)
    ensures Kept(s, p, i, a, WaitStep(s, i).s)
  {
    var s' := WaitStep(s, i).s;
    var p' := NoteTask(p, i, a, s.pc[i], s'.pc[i]);
    hide WaitStep, NoteTask, LifeOk, TaskOk, FlowOk, Running, SlotOk;
    WaitSelf(s, p, i, a);
    WaitFlow(s, p, i, a);
    forall c | 0 <= c < NT
      ensures LifeOk(s', p', c) && TaskOk(s', p', c)
    {
      WaitLife(s, p, i, a, c);
      if c != i {
        NoteElsewhere(p, i, a, s.pc[i], s'.pc[i], c);
        TaskSame(s, p, s', p', c);
      }
    }
  }

  lemma UserKept(s: State, p: Past, i: nat, a: Act)
    requires Running(s, p, i) && (s.pc[i].User? || s.pc[i].Start?) && TaskStep(s, i, a).Ok? && Shape(TaskStep(s, i, a).s) && Recorded(s, p)
    ensures Kept(s, p, i, a, TaskStep(s, i, a).s)
  {
    var s' := TaskStep(s, i, a).s;
    var p' := NoteTask(p, i, a, s.pc[i], s'.pc[i]);
    hide SlotOk, Scene;
    assert FlowOk(s', p') by {
      hide LifeOk, TaskOk;
    }
    hide FlowOk;
    forall c | 0 <= c < NT
      ensures LifeOk(s', p', c) && TaskOk(s', p', c)
    {
      assert LifeOk(s, p, c) && TaskOk(s, p, c);
    }
  }

  lemma TaskKept(s: State, p: Past, i: nat, a: Act)
    requires Inv(s) && s.cpu == AtTask(i) && Wide(p) && Recorded(s, p) && TaskStep(s, i, a).Ok? && Shape(TaskStep(s, i, a).s)
    ensures Kept(s, p, i, a, TaskStep(s, i, a).s)
  {
    var pc := s.pc[i];
    assert Running(s, p, i) by { assert SlotOk(i, s.pc[i], s.st[i], s.chan[i]); }
    assert Slots(s) && !Away(pc);
    hide DevStep, SleepStep, YieldStep, ForkStep, ExitStep, WaitStep, Inv, Running, Recorded, NoteTask;
    if DevPoint(pc) {
      DevKept(s, p, i, a);
    } else if SleepPoint(pc) {
      SleepKept(s, p, i, a);
    } else if YieldPoint(pc) {
      YieldKept(s, p, i, a);
    } else if ForkPoint(pc) {
      ForkKept(s, p, i, a);
    } else if ExitPoint(pc) {
      ExitKept(s, p, i, a);
    } else if WaitPoint(pc) {
      WaitKept(s, p, i, a);
    } else {
      UserKept(s, p, i, a);
    }
  }

  lemma SchedKept(s: State, p: Past, a: Act)
    requires Inv(s) && s.cpu.AtScheduler? && Wide(p) && Recorded(s, p) && SchedStep(s, a).Ok? && Shape(SchedStep(s, a).s)
    ensures Recorded(SchedStep(s, a).s, NoteSched(p, a, s.spc, SchedStep(s, a).s.spc))
  {
    var s' := SchedStep(s, a).s;
    var p' := NoteSched(p, a, s.spc, s'.spc);
    SchedFlow(s, p, a);
    hide FlowOk;
    forall c | 0 <= c < NT
      ensures LifeOk(s', p', c) && TaskOk(s', p', c)
    {
      assert LifeOk(s, p, c) && TaskOk(s, p, c) && SlotOk(c, s.pc[c], s.st[c], s.chan[c]);
      SchedSlot(s, p, a, c);
    }
  }

  lemma SchedFlow(s: State, p: Past, a: Act)
    requires Shape(s) && SchedScene(s) && s.cpu.AtScheduler? && Wide(p) && FlowOk(s, p) && SchedStep(s, a).Ok? && Shape(SchedStep(s, a).s)
    ensures FlowOk(SchedStep(s, a).s, NoteSched(p, a, s.spc, SchedStep(s, a).s.spc))
  {
    hide Slots, NoLost, NoneOn, LifeOk, TaskOk;
  }

  /** A task resumes inside the call it was switched out of. */
  lemma ResumeMeans(pc: Pc)
    requires Resume(pc).Some?
    ensures var to := Resume(pc).value; CallAt(to) == CallAt(pc) && ChanAt(to).None? && GotAt(to) == GotAt(pc)
  {}

  lemma SchedSlot(s: State, p: Past, a: Act, c: nat)
    requires Shape(s) && s.cpu.AtScheduler? && Wide(p) && SchedStep(s, a).Ok? && Shape(SchedStep(s, a).s) && c < NT
    requires LifeOk(s, p, c) && TaskOk(s, p, c) && SlotOk(c, s.pc[c], s.st[c], s.chan[c]) && SchedScene(s)
    ensures LifeOk(SchedStep(s, a).s, NoteSched(p, a, s.spc, SchedStep(s, a).s.spc), c)
    ensures TaskOk(SchedStep(s, a).s, NoteSched(p, a, s.spc, SchedStep(s, a).s.spc), c)
  {
    var s', p' := SchedStep(s, a).s, NoteSched(p, a, s.spc, SchedStep(s, a).s.spc);
    SchedMoves(s, a, c);
    assert p'.life == p.life && p'.call == p.call && p'.want == p.want && p'.got == p.got;
    hide SchedStep, NoteSched, Linking, LifeOk, SlotOk, SchedScene;
    LifeSame(s, p, s', p', c);
    if Resume(s.pc[c]).Some? { ResumeMeans(s.pc[c]); }
    hide Resume, CallAt, ChanAt, GotAt;
  }

  /** A step of the scheduler at most resumes a task. */
  lemma SchedMoves(s: State, a: Act, c: nat)
    requires Shape(s) && s.cpu.AtScheduler? && SchedStep(s, a).Ok? && Shape(SchedStep(s, a).s) && c < NT
    requires SlotOk(c, s.pc[c], s.st[c], s.chan[c])
    ensures var s' := SchedStep(s, a).s;
      && (s'.pc[c] == s.pc[c] || Some(s'.pc[c]) == Resume(s.pc[c])) && s'.parent == s.parent
      && (s'.st[c].Free? <==> s.st[c].Free?) && (s'.st[c].Zombie? <==> s.st[c].Zombie?)
      && Linking(s) == None == Linking(s')
  {
    hide SlotOk;
  }

  // ----------------------------------------------------------------- every run

  lemma BeginRecorded()
    ensures Recorded(Boot(), Begin())
  {}

  /** In every run the kernel's state agrees with the record. */
  lemma {:induction false} RunRecorded(acts: seq<Act>)
    ensures Run(acts).Ok? && Inv(Run(acts).s) && Recorded(Run(acts).s, Story(acts))
    decreases acts
  {
    RunSafe(acts);
    if acts == [] {
      BeginRecorded();
    } else {
      var before, a := acts[..|acts| - 1], acts[|acts| - 1];
      RunRecorded(before);
      var s := Run(before).s;
      assert Run(acts) == Step(s, a);
      hide Inv, Recorded, NoteTask, NoteSched, SchedStep, TaskStep;
      InvMeans(s);
      InvMeans(Run(acts).s);
      if s.cpu.AtScheduler? {
        SchedKept(s, Story(before), a);
      } else {
        TaskKept(s, Story(before), s.cpu.slot, a);
      }
    }
  }

  lemma InvMeans(s: State)
    requires Inv(s)
    ensures Shape(s) && (s.cpu.AtTask? ==> s.cpu.slot < NT)
  {}

  /** The slots' states and parent links are those of the tasks' lives: a slot is free
      exactly while nobody has taken it, a zombie exactly from its exit until it is
      collected, and its parent is the task whose fork took it, once linked. */
  lemma RunFamily(acts: seq<Act>, c: nat)
    requires c < NT
    ensures Run(acts).Ok? && Shape(Run(acts).s)
    ensures var s, life := Run(acts).s, Story(acts).life[c];
      && (s.st[c].Free? <==> life.Empty?) && (s.st[c].Zombie? <==> life.Dead?)
      && (!life.Empty? && Linking(s) != Some(c) ==> s.parent[c] == life.parent)
      && (life.Empty? || Linking(s) == Some(c) ==> s.parent[c] == None)
  {
    RunRecorded(acts);
    assert LifeOk(Run(acts).s, Story(acts), c);
  }

  /** wait collects a slot only of a task that the caller forked and that has exited. */
  lemma RunReaps(acts: seq<Act>, a: Act, i: nat, c: nat)
    requires i < NT && c < NT
    ensures Run(acts).Ok? && Run(acts + [a]).Ok? && Shape(Run(acts).s) && Shape(Run(acts + [a]).s)
    ensures Run(acts).s.cpu == AtTask(i) && Run(acts).s.pc[i] != WaitGot(c) && Run(acts + [a]).s.pc[i] == WaitGot(c) ==>
              Story(acts).life[c] == Dead(Some(i)) && Story(acts + [a]).life[c] == Empty
  {
    RunRecorded(acts);
    RunRecorded(acts + [a]);
    assert (acts + [a])[..|acts|] == acts;
    var s, s' := Run(acts).s, Run(acts + [a]).s;
    assert LifeOk(s, Story(acts), c) && LifeOk(s', Story(acts + [a]), c);
    if s.cpu == AtTask(i) && s.pc[i] != WaitGot(c) && s'.pc[i] == WaitGot(c) {
      hide Inv, Recorded, Story;
      ReapFrom(s, i, a, c);
    }
  }

  lemma ReapFrom(s: State, i: nat, a: Act, c: nat)
    requires Shape(s) && i < NT && c < NT && s.cpu == AtTask(i) && TaskStep(s, i, a).Ok? && Shape(TaskStep(s, i, a).s)
    requires s.pc[i] != WaitGot(c) && TaskStep(s, i, a).s.pc[i] == WaitGot(c)
    ensures s.pc[i].WaitAt? && s.parent[c] == Some(i) && s.st[c].Zombie? && TaskStep(s, i, a).s.st[c].Free?
    ensures Linking(s) == None
  {
    hide DevStep, SleepStep, YieldStep, ForkStep, ExitStep;
    NoReap(s, i, a);
  }

  lemma NoReap(s: State, i: nat, a: Act)
    requires Shape(s) && i < NT
    ensures DevStep(s, i, a).Ok? && |DevStep(s, i, a).s.pc| == NT ==> !DevStep(s, i, a).s.pc[i].WaitGot? || DevStep(s, i, a).s.pc[i] == s.pc[i]
    ensures SleepStep(s, i).Ok? && |SleepStep(s, i).s.pc| == NT ==> !SleepStep(s, i).s.pc[i].WaitGot?
    ensures YieldStep(s, i).Ok? && |YieldStep(s, i).s.pc| == NT ==> !YieldStep(s, i).s.pc[i].WaitGot?
    ensures ForkStep(s, i).Ok? && |ForkStep(s, i).s.pc| == NT ==> !ForkStep(s, i).s.pc[i].WaitGot?
    ensures ExitStep(s, i).Ok? && |ExitStep(s, i).s.pc| == NT ==> !ExitStep(s, i).s.pc[i].WaitGot?
  {}

  /** wait answers with the slot it has collected since it was called, and with none
      only when the caller has no child, living or dead. */
  lemma RunWaits(acts: seq<Act>, i: nat)
    requires i < NT
    ensures Run(acts).Ok? && Shape(Run(acts).s)
    ensures var s, p := Run(acts).s, Story(acts);
      s.cpu == AtTask(i) && s.pc[i].WaitDone? ==>
        && s.pc[i].answer == p.got[i] && p.call[i] == Wait
        && (p.got[i].None? ==> forall c :: 0 <= c < NT ==> p.life[c].Empty? || p.life[c].parent != Some(i))
  {
    RunRecorded(acts);
    var s, p := Run(acts).s, Story(acts);
    if s.cpu == AtTask(i) && s.pc[i].WaitDone? {
      assert TaskOk(s, p, i) && Scene(s, i);
      if p.got[i].None? {
        forall c | 0 <= c < NT
          ensures p.life[c].Empty? || p.life[c].parent != Some(i)
        {
          assert LifeOk(s, p, c) && s.parent[c] != Some(i);
        }
      }
    }
  }

  /** No wakeup is lost: a task asleep in wait has no child that has exited. */
  lemma RunNoLostChild(acts: seq<Act>, t: nat, c: nat)
    requires t < NT && c < NT
    ensures Run(acts).Ok? && Shape(Run(acts).s)
    ensures Waiting(Run(acts).s, t) ==> Story(acts).call[t] == Wait && Story(acts).life[c] != Dead(Some(t))
  {
    RunRecorded(acts);
    RunNoLostWakeup(acts, t, c);
    var s, p := Run(acts).s, Story(acts);
    assert LifeOk(s, p, c) && TaskOk(s, p, t);
    assert SlotOk(c, s.pc[c], s.st[c], s.chan[c]);
    if Linking(s) == Some(c) { assert FlowOk(s, p); }
  }

  /** fork takes the lowest unused slot for a child of the caller, and gives up only
      when there is none. */
  lemma RunForks(acts: seq<Act>, i: nat)
    requires i < NT
    ensures Run(acts).Ok? && Shape(Run(acts).s)
    ensures var s, p := Run(acts).s, Story(acts);
      && (s.cpu == AtTask(i) && s.pc[i].ForkScan? && s.pc[i].k >= NT ==> forall c :: 0 <= c < NT ==> !p.life[c].Empty?)
      && (s.cpu == AtTask(i) && s.pc[i].ForkInit? ==> forall c :: 0 <= c < NT && c < s.pc[i].child ==> !p.life[c].Empty?)
      && (s.cpu == AtTask(i) && (s.pc[i].ForkInit? || s.pc[i].ForkDone?) ==>
            p.call[i] == Act.Fork && s.pc[i].child < NT && p.life[s.pc[i].child] == Alive(Some(i)))
  {
    RunRecorded(acts);
    var s, p := Run(acts).s, Story(acts);
    assert FlowOk(s, p) && TaskOk(s, p, i);
    forall c | 0 <= c < NT
      ensures s.st[c].Free? <==> p.life[c].Empty?
    {
      assert LifeOk(s, p, c);
    }
  }

  /** A sleeping task sleeps on the channel it asked for, one that yielded is ready, and
      every task is inside the call it made. */
  lemma RunSleeps(acts: seq<Act>, j: nat)
    requires j < NT
    ensures Run(acts).Ok? && Shape(Run(acts).s)
    ensures var s, p := Run(acts).s, Story(acts);
      && (s.st[j].Sleeping? ==> p.want[j].Some? && s.chan[j] == p.want[j])
      && (s.pc[j].Yielded? ==> s.st[j].Ready?)
      && (CallAt(s.pc[j]).Some? ==> p.call[j] == CallAt(s.pc[j]).value)
  {
    RunRecorded(acts);
    var s, p := Run(acts).s, Story(acts);
    assert TaskOk(s, p, j) && SlotOk(j, s.pc[j], s.st[j], s.chan[j]);
  }

  /** The running context is about to wake slot j. */
  predicate WakesSlot(s: State, j: nat)
    requires Shape(s)
  {
    if s.cpu.AtScheduler? then s.spc.IrqWakeAt? && s.spc.k == j
    else s.cpu.slot < NT && (s.pc[s.cpu.slot].DevWakeAt? || s.pc[s.cpu.slot].ExitWakeAt?) && s.pc[s.cpu.slot].k == j
  }

  /** A sleeping task leaves its sleep exactly in the step of a wakeup that reaches it,
      if the channel woken is the one it went to sleep on; it never runs before. */
  lemma RunWakes(acts: seq<Act>, a: Act, j: nat)
    requires j < NT
    ensures Run(acts).Ok? && Run(acts + [a]).Ok? && Shape(Run(acts).s) && Shape(Run(acts + [a]).s)
    ensures var s, s', p := Run(acts).s, Run(acts + [a]).s, Story(acts);
      s.st[j].Sleeping? && s.cpu != AtTask(j) ==>
        (s'.st[j] != Sleeping <==> WakesSlot(s, j) && p.want[j] == p.wake) && s'.cpu != AtTask(j)
  {
    RunRecorded(acts);
    RunWakeExact(acts, a, j);
    RunSleeps(acts, j);
    var s, p := Run(acts).s, Story(acts);
    assert FlowOk(s, p);
    if s.cpu.AtTask? { assert Scene(s, s.cpu.slot); }
  }

  /** When a wakeup has gone through all slots, nobody sleeps on the channel woken. */
  lemma RunWakesAll(acts: seq<Act>, j: nat)
    requires j < NT
    ensures Run(acts).Ok? && Shape(Run(acts).s)
    ensures var s, p := Run(acts).s, Story(acts); WokenAll(s).Some? ==> p.wake == WokenAll(s) && !(s.st[j].Sleeping? && p.want[j] == p.wake)
  {
    RunRecorded(acts);
    RunWakeupComplete(acts, j);
    RunSleeps(acts, j);
    assert FlowOk(Run(acts).s, Story(acts));
  }

  /** The scheduler's loop passes no slot: when it has ended it has looked at every one,
      and a slot that is ready when it is looked at runs next. */
  lemma RunLooks(acts: seq<Act>, a: Act, j: nat)
    requires j < NT
    ensures Run(acts).Ok? && Run(acts + [a]).Ok? && Shape(Run(acts).s) && Shape(Run(acts + [a]).s)
    ensures var s, s' := Run(acts).s, Run(acts + [a]).s;
      && (s.cpu.AtScheduler? && s.spc.Scan? && s'.spc.Top? ==> j in Story(acts).looked)
      && (s.cpu.AtScheduler? && s.spc == At(j) && s.st[j].Ready? ==> s'.cpu == AtTask(j) && s'.st[j].Running?)
  {
    RunRecorded(acts);
    RunRecorded(acts + [a]);
    assert (acts + [a])[..|acts|] == acts;
    assert FlowOk(Run(acts).s, Story(acts));
  }
}
