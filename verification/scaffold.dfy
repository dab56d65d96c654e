/**
  The host scaffold as a system of threads. Any number of host threads call dispatch, set_context and
  set_emit_callback; every lock acquisition is a step of its own, so steps interleave at every point
  where another thread may run. A module operation is the list of locks its code path takes and drops.
  The emit callback is assumed not to call back into the module.
 */
module Scaffold {
  import opened Wrappers
  import opened Sequences

  datatype Lock = Registered | Instance | Context | CacheMap | AccountLock(id: nat) | Emit

  /** The order in which locks are nested. */
  function Rank(l: Lock): nat {
    match l
    case Registered => 0
    case Instance => 1
    case Context => 2
    case CacheMap => 3
    case AccountLock(_) => 4
    case Emit => 5
  }

  // ----- module operations -----

  datatype LockAction = Take(lock: Lock) | Drop(lock: Lock)

  datatype Method =
    | CreateAccount | ImportPlog | ExportPlog | RemovePlog | ClearCache | GetValue | ListDelegations
    | PrepareUpdate | PrepareDelegate | PrepareRevoke | CommitUpdate | CancelUpdate
    | Unrouted                                        // an unknown method, or too few arguments

  /**
    One dispatched operation and the branches it takes: whether the log could be opened or decoded
    (`ok`), the VLAD could be decoded (`keyed`), the account is cached (`found`), the account
    operation succeeds (`ok`), and a path event follows the update event (`path`).
   */
  datatype Operation = Operation(m: Method, account: nat, keyed: bool, found: bool, ok: bool, path: bool)

  function Hold(l: Lock, inside: seq<LockAction>): seq<LockAction> {
    [Take(l)] + inside + [Drop(l)]
  }

  function Once(l: Lock): seq<LockAction> {
    Hold(l, [])
  }

  /** What happens with the account locked: events are emitted before the lock is dropped. */
  function UnderAccount(op: Operation): seq<LockAction> {
    if op.m.ExportPlog? then []
    else if !op.ok then Once(Emit)
    else if op.m.CommitUpdate? then Once(Emit) + if op.path then Once(Emit) else []
    else []
  }

  /** The locks an operation takes and drops, in program order. */
  function OpLocks(op: Operation): seq<LockAction> {
    match op.m
    case CreateAccount =>
      if !op.ok then Once(Emit) else Once(Emit) + if op.keyed then Once(CacheMap) else Once(Emit)
    case ImportPlog => if op.ok && op.keyed then Once(CacheMap) else Once(Emit)
    case ClearCache => Once(CacheMap)
    case Unrouted => []
    case RemovePlog =>
      if !op.keyed then Once(Emit) else Once(CacheMap) + if op.found then [] else Once(Emit)
    case _ =>
      if !op.keyed then Once(Emit)
      else Once(CacheMap) + if op.found then Hold(AccountLock(op.account), UnderAccount(op)) else Once(Emit)
  }

  function TopRank(inner: seq<Lock>): nat {
    if inner == [] then Rank(Instance) else Rank(Last(inner))
  }

  /** Locks nest: each is taken above the ones held, dropped innermost first, and none is kept. */
  predicate Nested(inner: seq<Lock>, todo: seq<LockAction>)
    decreases |todo|
  {
    if todo == [] then inner == []
    else match todo[0]
      case Take(l) => Rank(l) > TopRank(inner) && Nested(inner + [l], todo[1..])
      case Drop(l) => inner != [] && Last(inner) == l && Nested(Init(inner), todo[1..])
  }

  lemma NestedTake(inner: seq<Lock>, l: Lock, rest: seq<LockAction>)
    requires Rank(l) > TopRank(inner) && Nested(inner + [l], rest)
    ensures Nested(inner, [Take(l)] + rest)
  {
    assert ([Take(l)] + rest)[1..] == rest;
  }

  lemma NestedDrop(inner: seq<Lock>, l: Lock, rest: seq<LockAction>)
    requires Nested(inner, rest)
    ensures Nested(inner + [l], [Drop(l)] + rest)
  {
    assert ([Drop(l)] + rest)[1..] == rest;
    SnocParts(inner, l);
  }

  lemma NestedOnce(inner: seq<Lock>, l: Lock, rest: seq<LockAction>)
    requires Rank(l) > TopRank(inner) && Nested(inner, rest)
    ensures Nested(inner, Once(l) + rest)
  {
    NestedDrop(inner, l, rest);
    NestedTake(inner, l, [Drop(l)] + rest);
    assert Once(l) + rest == [Take(l)] + ([Drop(l)] + rest);
  }

  lemma OnceNested(l: Lock)
    requires Rank(l) > Rank(Instance)
    ensures Nested([], Once(l))
  {
    NestedOnce([], l, []);
    assert Once(l) + [] == Once(l);
  }

  lemma UnderAccountNested(op: Operation, inner: seq<Lock>, rest: seq<LockAction>)
    requires Rank(Emit) > TopRank(inner) && Nested(inner, rest)
    ensures Nested(inner, UnderAccount(op) + rest)
  {
    hide Nested, Once;
    NestedOnce(inner, Emit, rest);
    NestedOnce(inner, Emit, Once(Emit) + rest);
    var under := UnderAccount(op);
    if under == [] {
      assert under + rest == rest;
    } else if under == Once(Emit) + Once(Emit) {
      assert under + rest == Once(Emit) + (Once(Emit) + rest);
    } else {
      assert Once(Emit) + [] == Once(Emit);
    }
  }

  lemma AccountNested(op: Operation)
    ensures Nested([], Hold(AccountLock(op.account), UnderAccount(op)))
  {
    var l := AccountLock(op.account);
    assert [] + [l] == [l] && [Drop(l)] + [] == [Drop(l)];
    NestedDrop([], l, []);
    UnderAccountNested(op, [l], [Drop(l)]);
    NestedTake([], l, UnderAccount(op) + [Drop(l)]);
    assert Hold(l, UnderAccount(op)) == [Take(l)] + (UnderAccount(op) + [Drop(l)]);
  }

  lemma NoneNested()
    ensures Nested([], [])
  {
  }

  /** Every operation, on every path through it, nests its locks in rank order and keeps none. */
  lemma OperationsNest(op: Operation)
    ensures Nested([], OpLocks(op))
  {
    hide Nested, UnderAccount, Hold, Once;
    NoneNested();
    OnceNested(Emit);
    OnceNested(CacheMap);
    match op.m
    case CreateAccount =>
      NestedOnce([], Emit, if op.keyed then Once(CacheMap) else Once(Emit));
    case ImportPlog =>
    case ClearCache =>
    case Unrouted =>
    case RemovePlog =>
      if op.keyed {
        NestedOnce([], CacheMap, if op.found then [] else Once(Emit));
      }
    case _ => CachedNested(op);
  }

  lemma CachedNested(op: Operation)
    ensures op.keyed ==>
      Nested([], Once(CacheMap) + if op.found then Hold(AccountLock(op.account), UnderAccount(op)) else Once(Emit))
  {
    hide Nested, UnderAccount, Hold, Once;
    OnceNested(Emit);
    AccountNested(op);
    NestedOnce([], CacheMap, if op.found then Hold(AccountLock(op.account), UnderAccount(op)) else Once(Emit));
  }

  // ----- threads -----

  datatype HostCall = Dispatch(op: Operation) | SetContext(ctx: string) | SetEmit(callback: bool)

  datatype Stage =
    | Begin | Write                                   // a setter and its cell
    | CheckReg | CheckingReg                          // is an implementation registered?
    | InstallReg | InstallingReg                      // install it
    | ReadReg | ReadingReg                            // fetch its ensure function
    | WantInstance | InInstance                       // ensure: create, test HOOK_FIRED
    | WantContext | InContext
    | WantEmit(ctx: string) | InEmit(ctx: string)
    | Fire(ctx: string)                               // set HOOK_FIRED, call the hook
    | Leave                                           // drop INSTANCE
    | DispatchReg | DispatchCheck | DispatchInstance
    | Running(todo: seq<LockAction>, inner: seq<Lock>)
    | DispatchDone                                    // drop REGISTERED

  /** What a call reads on its way through ensure: HOOK_FIRED set, a cell it needs empty, or all it needs. */
  datatype Seen = Nothing | Already | NoContext | NoCallback | AllSet

  /** `hadContext` records whether a context was in place when the call began, `seen` what it has read since. */
  datatype Thread = Idle | Busy(call: HostCall, stage: Stage, hadContext: bool, seen: Seen)

  /** The global cells; `hooks` lists the contexts the hook was fired with, `given` all contexts set, in order. */
  datatype Cells = Cells(context: Option<string>, callback: bool, registered: bool, instance: bool,
                         hookFired: bool, hooks: seq<string>, given: seq<string>)

  datatype Host = Host(holder: map<Lock, nat>, threads: seq<Thread>, cells: Cells)

  const UNSET := Cells(None, false, false, false, false, [], [])

  predicate IsSetter(call: HostCall) {
    !call.Dispatch?
  }

  function CellLock(call: HostCall): Lock {
    if call.SetContext? then Context else Emit
  }

  /** The locks a thread holds. */
  function Holds(th: Thread): set<Lock> {
    if th.Idle? then {}
    else match th.stage
      case Write => {CellLock(th.call)}
      case CheckingReg => {Registered}
      case InstallingReg => {Registered}
      case ReadingReg => {Registered}
      case InInstance => {Instance}
      case WantContext => {Instance}
      case InContext => {Instance, Context}
      case WantEmit(_) => {Instance}
      case InEmit(_) => {Instance, Emit}
      case Fire(_) => {Instance}
      case Leave => {Instance}
      case DispatchCheck => {Registered}
      case DispatchInstance => {Registered}
      case Running(_, inner) => {Registered, Instance} + set l | l in inner
      case DispatchDone => {Registered}
      case _ => {}
  }

  /** The lock a thread must get to go on. */
  function Wants(th: Thread): Option<Lock> {
    if th.Idle? then None
    else match th.stage
      case Begin => Some(CellLock(th.call))
      case CheckReg => Some(Registered)
      case InstallReg => Some(Registered)
      case ReadReg => Some(Registered)
      case WantInstance => Some(Instance)
      case WantContext => Some(Context)
      case WantEmit(_) => Some(Emit)
      case DispatchReg => Some(Registered)
      case DispatchInstance => Some(Instance)
      case Running(todo, _) => if todo != [] && todo[0].Take? then Some(todo[0].lock) else None
      case _ => None
  }

  /** One step of a thread, given the cells: what it drops, and where it and the cells are after. */
  datatype Effect = Effect(drop: Option<Lock>, thread: Thread, cells: Cells)

  function AfterEnsure(th: Thread): Thread
    requires th.Busy?
  {
    if IsSetter(th.call) then Idle else th.(stage := DispatchReg)
  }

  function Written(call: HostCall, c: Cells): Cells {
    match call
    case SetContext(ctx) => c.(context := Some(ctx), given := c.given + [ctx])
    case SetEmit(callback) => c.(callback := callback)
    case Dispatch(_) => c
  }

  function Local(th: Thread, c: Cells, input: HostCall): Effect {
    match th
    case Idle => Effect(None, Busy(input, if IsSetter(input) then Begin else CheckReg, c.context.Some?, Nothing), c)
    case Busy(call, stage, _, _) =>
      match stage
      case Begin => Effect(None, th.(stage := Write), c)
      case Write => Effect(Some(CellLock(call)), th.(stage := CheckReg), Written(call, c))
      case CheckReg => Effect(None, th.(stage := CheckingReg), c)
      case CheckingReg => Effect(Some(Registered), th.(stage := if c.registered then ReadReg else InstallReg), c)
      case InstallReg => Effect(None, th.(stage := InstallingReg), c)
      case InstallingReg => Effect(Some(Registered), th.(stage := ReadReg), c.(registered := true))
      case ReadReg => Effect(None, th.(stage := ReadingReg), c)
      case ReadingReg =>
        Effect(Some(Registered), if c.registered then th.(stage := WantInstance) else AfterEnsure(th), c)
      case WantInstance => Effect(None, th.(stage := InInstance), c)
      case InInstance =>
        Effect(None, if c.hookFired then th.(stage := Leave, seen := Already) else th.(stage := WantContext),
               c.(instance := true))
      case WantContext => Effect(None, th.(stage := InContext), c)
      case InContext =>
        Effect(Some(Context),
               match c.context
               case None => th.(stage := Leave, seen := NoContext)
               case Some(ctx) =>
                 if IsSetter(call) then th.(stage := WantEmit(ctx)) else th.(stage := Fire(ctx), seen := AllSet), c)
      case WantEmit(ctx) => Effect(None, th.(stage := InEmit(ctx)), c)
      case InEmit(ctx) =>
        Effect(Some(Emit),
               if c.callback then th.(stage := Fire(ctx), seen := AllSet) else th.(stage := Leave, seen := NoCallback), c)
      case Fire(ctx) => Effect(None, th.(stage := Leave), c.(hookFired := true, hooks := c.hooks + [ctx]))
      case Leave => Effect(Some(Instance), AfterEnsure(th), c)
      case DispatchReg => Effect(None, th.(stage := DispatchCheck), c)
      case DispatchCheck =>
        if c.registered then Effect(None, th.(stage := DispatchInstance), c) else Effect(Some(Registered), Idle, c)
      case DispatchInstance =>
        Effect(None, th.(stage := Running(if call.Dispatch? then OpLocks(call.op) else [], [])), c.(instance := true))
      case Running(todo, inner) =>
        if todo == [] then Effect(Some(Instance), th.(stage := DispatchDone), c)
        else (match todo[0]
          case Take(l) => Effect(None, th.(stage := Running(todo[1..], inner + [l])), c)
          case Drop(l) =>
            Effect(Some(l), th.(stage := Running(todo[1..], if inner == [] then [] else Init(inner))), c))
      case DispatchDone => Effect(Some(Registered), Idle, c)
  }

  predicate Blocked(s: Host, t: nat)
    requires t < |s.threads|
  {
    Wants(s.threads[t]).Some? && Wants(s.threads[t]).value in s.holder
  }

  /** Thread `t` takes its next step, unless the lock it wants is held. `input` is the call an idle thread makes. */
  function Next(s: Host, t: nat, input: HostCall): Host
    requires t < |s.threads|
  {
    if Blocked(s, t) then s
    else
      var th := s.threads[t];
      var e := Local(th, s.cells, input);
      var taken := if Wants(th).Some? then s.holder[Wants(th).value := t] else s.holder;
      Host(if e.drop.Some? then taken - {e.drop.value} else taken, s.threads[t := e.thread], e.cells)
  }

  // ----- what one thread keeps -----

  predicate SetterStage(stage: Stage) {
    stage.Begin? || stage.Write? || stage.WantEmit? || stage.InEmit?
  }

  predicate DispatchStage(stage: Stage) {
    stage.DispatchReg? || stage.DispatchCheck? || stage.DispatchInstance? || stage.Running? || stage.DispatchDone?
  }

  /** The stage fits the call, and a running operation has its locks nested. */
  predicate Shaped(th: Thread) {
    th.Busy? ==>
      && (SetterStage(th.stage) ==> IsSetter(th.call))
      && (DispatchStage(th.stage) ==> th.call.Dispatch?)
      && (th.stage.Running? ==> Nested(th.stage.inner, th.stage.todo) && Ascending(th.stage.inner))
  }

  /** Locks held inside an operation, each above INSTANCE and above the one before. */
  predicate Ascending(inner: seq<Lock>) {
    inner == [] || (Ascending(Init(inner)) && Rank(Last(inner)) > TopRank(Init(inner)))
  }

  lemma {:induction false} AscendingRanks(inner: seq<Lock>, l: Lock)
    requires Ascending(inner) && l in inner
    ensures Rank(Instance) < Rank(l) <= TopRank(inner)
    ensures l == Last(inner) || l in Init(inner)
    ensures l in Init(inner) ==> Rank(l) < Rank(Last(inner))
  {
    assert inner == Init(inner) + [Last(inner)];
    if l in Init(inner) {
      AscendingRanks(Init(inner), l);
    } else {
      TopAboveInstance(Init(inner));
    }
  }

  lemma TopAboveInstance(inner: seq<Lock>)
    requires Ascending(inner)
    ensures TopRank(inner) >= Rank(Instance)
    decreases |inner|
  {
  }

  lemma LocalShaped(th: Thread, c: Cells, input: HostCall)
    requires Shaped(th)
    ensures Shaped(Local(th, c, input).thread)
  {
    hide OpLocks, Nested, Ascending, Local;
    if th.Busy? && th.stage.Running? {
      RunningShaped(th, c, input);
    } else if th.Busy? && DispatchStage(th.stage) {
      DispatchShaped(th, c, input);
    } else {
      EnsureShaped(th, c, input);
    }
  }

  lemma EnsureShaped(th: Thread, c: Cells, input: HostCall)
    requires Shaped(th) && (th.Busy? ==> !DispatchStage(th.stage))
    ensures Shaped(Local(th, c, input).thread)
  {
    hide OpLocks, Nested, Ascending;
  }

  lemma DispatchShaped(th: Thread, c: Cells, input: HostCall)
    requires Shaped(th) && th.Busy? && DispatchStage(th.stage) && !th.stage.Running?
    ensures Shaped(Local(th, c, input).thread)
  {
    hide OpLocks, Nested, Ascending;
    NoneAscending();
    OperationsNest(th.call.op);
  }

  lemma NoneAscending()
    ensures Ascending([])
  {
  }

  lemma RunningShaped(th: Thread, c: Cells, input: HostCall)
    requires Shaped(th) && th.Busy? && th.stage.Running?
    ensures Shaped(Local(th, c, input).thread)
  {
  }

  /** A thread wants only locks ranked above all it holds. */
  lemma WantsInOrder(th: Thread, l: Lock)
    requires Shaped(th) && Wants(th).Some? && l in Holds(th)
    ensures Rank(l) < Rank(Wants(th).value)
  {
    if th.stage.Running? {
      TopAboveInstance(th.stage.inner);
      if l in th.stage.inner {
        AscendingRanks(th.stage.inner, l);
      }
    }
  }

  /** What is held after taking `want` and dropping `drop`. */
  function Held(held: set<Lock>, want: Option<Lock>, drop: Option<Lock>): set<Lock> {
    held + (if want.Some? then {want.value} else {}) - (if drop.Some? then {drop.value} else {})
  }

  /** A step changes what a thread holds by the lock it wanted or the lock it drops. */
  lemma LocalHolds(th: Thread, c: Cells, input: HostCall)
    requires Shaped(th)
    ensures var e := Local(th, c, input);
      && (e.drop.Some? ==> e.drop.value in Holds(th) && Wants(th).None?)
      && Holds(e.thread) == Held(Holds(th), Wants(th), e.drop)
  {
    hide OpLocks, Nested, Ascending, Local, Holds, Wants, Held;
    if th.Busy? {
      if th.stage.Running? {
        RunningHolds(th, c, input);
      } else if DispatchStage(th.stage) {
        DispatchHolds(th, c, input);
      } else {
        EnsureHolds(th, c, input);
      }
    } else {
      IdleHolds(th, c, input);
    }
  }

  lemma IdleHolds(th: Thread, c: Cells, input: HostCall)
    requires th.Idle?
    ensures var e := Local(th, c, input);
      && e.drop.None? && Holds(e.thread) == Held(Holds(th), Wants(th), e.drop)
  {
  }

  lemma EnsureHolds(th: Thread, c: Cells, input: HostCall)
    requires Shaped(th) && th.Busy? && !DispatchStage(th.stage)
    ensures var e := Local(th, c, input);
      && (e.drop.Some? ==> e.drop.value in Holds(th) && Wants(th).None?)
      && Holds(e.thread) == Held(Holds(th), Wants(th), e.drop)
  {
    hide OpLocks, Nested, Ascending;
  }

  lemma DispatchHolds(th: Thread, c: Cells, input: HostCall)
    requires th.Busy? && DispatchStage(th.stage) && !th.stage.Running?
    ensures var e := Local(th, c, input);
      && (e.drop.Some? ==> e.drop.value in Holds(th) && Wants(th).None?)
      && Holds(e.thread) == Held(Holds(th), Wants(th), e.drop)
  {
    hide OpLocks, Nested, Ascending;
  }

  lemma InnerTake(inner: seq<Lock>, l: Lock)
    ensures (set x | x in inner + [l]) == (set x | x in inner) + {l}
  {
  }

  lemma InnerDrop(inner: seq<Lock>)
    requires inner != [] && Ascending(inner)
    ensures (set x | x in Init(inner)) == (set x | x in inner) - {Last(inner)}
    ensures Last(inner) in inner && Last(inner) != Registered && Last(inner) != Instance
  {
    hide Ascending;
    assert inner == Init(inner) + [Last(inner)];
    AscendingRanks(inner, Last(inner));
  }

  lemma RunningHolds(th: Thread, c: Cells, input: HostCall)
    requires Shaped(th) && th.Busy? && th.stage.Running?
    ensures var e := Local(th, c, input);
      && (e.drop.Some? ==> e.drop.value in Holds(th) && Wants(th).None?)
      && Holds(e.thread) == Held(Holds(th), Wants(th), e.drop)
  {
    hide Ascending, OpLocks;
    var todo, inner := th.stage.todo, th.stage.inner;
    if todo == [] {
    } else if todo[0].Take? {
      InnerTake(inner, todo[0].lock);
    } else {
      InnerDrop(inner);
    }
  }

  // ----- who holds what -----

  /** `holder` and the sets held by the threads say the same. */
  predicate OwnedBy(holder: map<Lock, nat>, held: seq<set<Lock>>) {
    && (forall l :: l in holder ==> holder[l] < |held| && l in held[holder[l]])
    && (forall t, l :: 0 <= t < |held| && l in held[t] ==> l in holder && holder[l] == t)
  }

  function HeldBy(threads: seq<Thread>): seq<set<Lock>> {
    seq(|threads|, t requires 0 <= t < |threads| => Holds(threads[t]))
  }

  lemma TakeOwned(holder: map<Lock, nat>, held: seq<set<Lock>>, t: nat, l: Lock)
    requires OwnedBy(holder, held) && t < |held| && l !in holder
    ensures OwnedBy(holder[l := t], held[t := held[t] + {l}])
  {
  }

  lemma DropOwned(holder: map<Lock, nat>, held: seq<set<Lock>>, t: nat, l: Lock)
    requires OwnedBy(holder, held) && t < |held| && l in held[t]
    ensures OwnedBy(holder - {l}, held[t := held[t] - {l}])
  {
    var held' := held[t := held[t] - {l}];
    forall u, k | 0 <= u < |held'| && k in held'[u] ensures k in holder - {l} && (holder - {l})[k] == u {
      assert k in held[u];
      assert holder[l] == t && holder[k] == u;
    }
  }

  predicate AllShaped(s: Host) {
    forall t :: 0 <= t < |s.threads| ==> Shaped(s.threads[t])
  }

  predicate LockInv(s: Host) {
    OwnedBy(s.holder, HeldBy(s.threads)) && AllShaped(s)
  }

  lemma NextKeepsOwned(s: Host, t: nat, input: HostCall)
    requires t < |s.threads| && LockInv(s) && !Blocked(s, t)
    ensures var s' := Next(s, t, input); OwnedBy(s'.holder, HeldBy(s'.threads))
  {
    var th := s.threads[t];
    var e, held := Local(th, s.cells, input), HeldBy(s.threads);
    LocalHolds(th, s.cells, input);
    assert held[t] == Holds(th);
    assert HeldBy(s.threads[t := e.thread]) == held[t := Held(Holds(th), Wants(th), e.drop)];
    if Wants(th).Some? {
      TakeOwned(s.holder, held, t, Wants(th).value);
      assert Held(Holds(th), Wants(th), e.drop) == held[t] + {Wants(th).value};
    } else if e.drop.Some? {
      DropOwned(s.holder, held, t, e.drop.value);
      assert Held(Holds(th), Wants(th), e.drop) == held[t] - {e.drop.value};
    } else {
      assert Held(Holds(th), Wants(th), e.drop) == held[t];
      assert held[t := held[t]] == held;
    }
  }

  lemma NextKeepsLocks(s: Host, t: nat, input: HostCall)
    requires t < |s.threads| && LockInv(s)
    ensures LockInv(Next(s, t, input))
  {
    if !Blocked(s, t) {
      NextKeepsOwned(s, t, input);
      LocalShaped(s.threads[t], s.cells, input);
    }
  }

  /** A lock has one holder. */
  lemma Exclusive(s: Host, t: nat, l: Lock)
    requires LockInv(s) && t < |s.threads| && l in Holds(s.threads[t])
    ensures l in s.holder && s.holder[l] == t
  {
    assert HeldBy(s.threads)[t] == Holds(s.threads[t]);
  }

  /** No two threads hold the same lock, so at most one module operation is running. */
  lemma SerialOperations(s: Host, t: nat, u: nat)
    requires LockInv(s) && t < |s.threads| && u < |s.threads|
    requires s.threads[t].Busy? && s.threads[t].stage.Running?
    requires s.threads[u].Busy? && s.threads[u].stage.Running?
    ensures t == u
  {
    Exclusive(s, t, Instance);
    Exclusive(s, u, Instance);
  }

  // ----- no deadlock -----

  /** Thread `t` waits for a lock that `u` holds. */
  predicate WaitsFor(s: Host, t: nat, u: nat)
    requires t < |s.threads|
  {
    Blocked(s, t) && s.holder[Wants(s.threads[t]).value] == u
  }

  predicate WaitsForNext(s: Host, ts: seq<nat>, i: nat)
    requires i < |ts|
  {
    ts[i] < |s.threads| && WaitsFor(s, ts[i], if i + 1 < |ts| then ts[i + 1] else ts[0])
  }

  /** Threads waiting for one another in a circle. */
  predicate WaitCycle(s: Host, ts: seq<nat>) {
    ts != [] && forall i :: 0 <= i < |ts| ==> WaitsForNext(s, ts, i)
  }

  function WantedRank(s: Host, t: nat): nat
    requires t < |s.threads| && Wants(s.threads[t]).Some?
  {
    Rank(Wants(s.threads[t]).value)
  }

  lemma WaitingClimbs(s: Host, t: nat, u: nat)
    requires LockInv(s) && t < |s.threads| && WaitsFor(s, t, u)
    ensures u < |s.threads| && s.threads[u].Busy?
    ensures Wants(s.threads[u]).Some? ==> WantedRank(s, t) < WantedRank(s, u)
  {
    var l := Wants(s.threads[t]).value;
    assert u < |s.threads| && l in HeldBy(s.threads)[u];
    if Wants(s.threads[u]).Some? {
      WantsInOrder(s.threads[u], l);
    }
  }

  lemma {:induction false} CycleClimbs(s: Host, ts: seq<nat>, i: nat)
    requires LockInv(s) && WaitCycle(s, ts) && i < |ts|
    ensures ts[0] < |s.threads| && Wants(s.threads[ts[0]]).Some?
    ensures ts[i] < |s.threads| && Wants(s.threads[ts[i]]).Some?
    ensures WantedRank(s, ts[0]) + i <= WantedRank(s, ts[i])
  {
    hide Wants, Holds;
    assert WaitsForNext(s, ts, 0) && WaitsForNext(s, ts, i);
    if i > 0 {
      CycleClimbs(s, ts, i - 1);
      assert WaitsForNext(s, ts, i - 1);
      WaitingClimbs(s, ts[i - 1], ts[i]);
    }
  }

  /** No number of threads wait for one another in a circle; in particular none waits for itself. */
  lemma NoWaitCycle(s: Host, ts: seq<nat>)
    requires LockInv(s)
    ensures !WaitCycle(s, ts)
  {
    if WaitCycle(s, ts) {
      var n := |ts| - 1;
      CycleClimbs(s, ts, n);
      assert WaitsForNext(s, ts, n);
      WaitingClimbs(s, ts[n], ts[0]);
    }
  }

  /** Whenever a call is in progress, some call can take its next step. */
  lemma {:induction false} SomeoneMoves(s: Host, t: nat) returns (u: nat)
    requires LockInv(s) && t < |s.threads| && s.threads[t].Busy?
    ensures u < |s.threads| && s.threads[u].Busy? && !Blocked(s, u)
    decreases if Wants(s.threads[t]).Some? then 6 - WantedRank(s, t) else 0
  {
    if Blocked(s, t) {
      u := s.holder[Wants(s.threads[t]).value];
      WaitingClimbs(s, t, u);
      if Blocked(s, u) {
        u := SomeoneMoves(s, u);
      }
    } else {
      u := t;
    }
  }

  // ----- the context hook -----

  /** Past ensure_ready: the hook has been considered. */
  predicate PastEnsure(stage: Stage) {
    stage.Leave? || stage.DispatchReg? || stage.DispatchCheck? || stage.DispatchInstance? || stage.Running? ||
    stage.DispatchDone?
  }

  /** A setter that has written its cell and has not yet decided about the hook. */
  predicate BoundToLook(th: Thread) {
    th.Busy? && IsSetter(th.call) && !PastEnsure(th.stage) && !th.stage.Begin? && !th.stage.Write?
  }

  predicate InsideEnsure(stage: Stage) {
    stage.WantContext? || stage.InContext? || stage.WantEmit? || stage.InEmit? || stage.Fire?
  }

  predicate NeedsRegistered(stage: Stage) {
    stage.ReadReg? || stage.ReadingReg? || stage.WantInstance? || stage.InInstance? || InsideEnsure(stage) ||
    PastEnsure(stage)
  }

  /** A call that began with a context still has one; a stage past installation finds it registered. */
  predicate Prepared(th: Thread, c: Cells) {
    th.Busy? ==> (th.hadContext ==> c.context.Some?) && (NeedsRegistered(th.stage) ==> c.registered)
  }

  /** A thread deciding about the hook knows it has not fired, and carries a context that was given. */
  predicate Deciding(th: Thread, c: Cells) {
    th.Busy? ==>
      && (InsideEnsure(th.stage) ==> !c.hookFired)
      && (th.stage.WantEmit? || th.stage.InEmit? || th.stage.Fire? ==> th.stage.ctx in c.given)
  }

  /** A dispatch that began with a context is past ensure_ready only after the hook has fired. */
  predicate Served(th: Thread, c: Cells) {
    th.Busy? && th.call.Dispatch? && th.hadContext && PastEnsure(th.stage) ==> c.hookFired
  }

  /** About to leave ensure, a call finds the hook fired exactly when it read that or everything it needs. */
  predicate Reported(th: Thread, c: Cells) {
    th.Busy? ==>
      && (th.stage.Fire? ==> th.seen.AllSet?)
      && (th.stage.Leave? ==> !th.seen.Nothing? && (c.hookFired <==> th.seen.Already? || th.seen.AllSet?))
  }

  predicate Informed(th: Thread, c: Cells) {
    Prepared(th, c) && Deciding(th, c) && Served(th, c) && Reported(th, c)
  }

  predicate CellsInv(c: Cells) {
    && c.hookFired == (|c.hooks| == 1) && |c.hooks| <= 1
    && (forall h :: h in c.hooks ==> h in c.given)
    && c.context == (if c.given == [] then None else Some(Last(c.given)))
  }

  predicate HookDue(c: Cells) {
    c.context.Some? && c.callback && !c.hookFired
  }

  predicate HookInv(s: Host) {
    && CellsInv(s.cells)
    && (forall t :: 0 <= t < |s.threads| ==> Informed(s.threads[t], s.cells))
    && (HookDue(s.cells) ==> exists t :: 0 <= t < |s.threads| && BoundToLook(s.threads[t]))
  }

  lemma LocalPrepared(th: Thread, c: Cells, input: HostCall)
    requires Shaped(th) && Prepared(th, c)
    ensures var e := Local(th, c, input); Prepared(e.thread, e.cells)
  {
    hide OpLocks, Nested, Ascending, Holds;
  }

  lemma LocalDeciding(th: Thread, c: Cells, input: HostCall)
    requires Shaped(th) && Deciding(th, c) && CellsInv(c)
    ensures var e := Local(th, c, input); Deciding(e.thread, e.cells)
  {
    hide Local;
    if th.Busy? && InsideEnsure(th.stage) {
      InsideDeciding(th, c, input);
    } else {
      OutsideDeciding(th, c, input);
    }
  }

  lemma InsideDeciding(th: Thread, c: Cells, input: HostCall)
    requires th.Busy? && InsideEnsure(th.stage) && Deciding(th, c) && CellsInv(c)
    ensures var e := Local(th, c, input); Deciding(e.thread, e.cells)
  {
    hide OpLocks;
  }

  lemma OutsideDeciding(th: Thread, c: Cells, input: HostCall)
    requires Shaped(th) && (th.Busy? ==> !InsideEnsure(th.stage)) && Deciding(th, c)
    ensures var e := Local(th, c, input); Deciding(e.thread, e.cells)
  {
    hide OpLocks, Nested, Ascending;
  }

  lemma LocalServed(th: Thread, c: Cells, input: HostCall)
    requires Shaped(th) && Prepared(th, c) && Served(th, c)
    ensures var e := Local(th, c, input); Served(e.thread, e.cells)
  {
    hide OpLocks, Nested, Ascending;
  }

  lemma LocalReported(th: Thread, c: Cells, input: HostCall)
    requires Shaped(th) && Deciding(th, c) && Reported(th, c)
    ensures var e := Local(th, c, input); Reported(e.thread, e.cells)
  {
    hide Local;
    if th.Busy? && InsideEnsure(th.stage) {
      InsideReported(th, c, input);
    } else {
      OutsideReported(th, c, input);
    }
  }

  lemma InsideReported(th: Thread, c: Cells, input: HostCall)
    requires th.Busy? && InsideEnsure(th.stage) && Deciding(th, c) && Reported(th, c)
    ensures var e := Local(th, c, input); Reported(e.thread, e.cells)
  {
    hide OpLocks;
  }

  lemma OutsideReported(th: Thread, c: Cells, input: HostCall)
    requires (th.Busy? ==> !InsideEnsure(th.stage)) && Reported(th, c)
    ensures var e := Local(th, c, input); Reported(e.thread, e.cells)
  {
    hide OpLocks;
  }

  lemma WrittenCells(c: Cells, call: HostCall)
    requires CellsInv(c)
    ensures CellsInv(Written(call, c))
  {
  }

  lemma FiredCells(c: Cells, ctx: string)
    requires CellsInv(c) && !c.hookFired && ctx in c.given
    ensures CellsInv(c.(hookFired := true, hooks := c.hooks + [ctx]))
  {
    assert c.hooks == [];
  }

  lemma LocalCells(th: Thread, c: Cells, input: HostCall)
    requires Deciding(th, c) && CellsInv(c)
    ensures CellsInv(Local(th, c, input).cells)
  {
    assert CellsInv(c.(registered := true)) && CellsInv(c.(instance := true));
    hide OpLocks, CellsInv;
    if th.Busy? && th.stage.Fire? {
      FiredCells(c, th.stage.ctx);
    } else if th.Busy? && th.stage.Write? {
      WrittenCells(c, th.call);
    }
  }

  /** Cells only move forward, and HOOK_FIRED is set only by a thread that holds INSTANCE. */
  lemma CellsForward(th: Thread, c: Cells, input: HostCall)
    ensures var e := Local(th, c, input);
      && (c.context.Some? ==> e.cells.context.Some?) && (c.registered ==> e.cells.registered)
      && c.given <= e.cells.given && (c.hookFired ==> e.cells.hookFired)
      && (e.cells.hookFired && !c.hookFired ==> th.Busy? && th.stage.Fire?)
  {
    hide OpLocks;
  }

  /** A thread bound to look keeps looking until the hook has fired. */
  lemma StaysBound(th: Thread, c: Cells, input: HostCall)
    requires Prepared(th, c) && Shaped(th)
    ensures var e := Local(th, c, input);
      && (HookDue(c) && BoundToLook(th) ==> e.cells.hookFired || BoundToLook(e.thread))
      && (!HookDue(c) && HookDue(e.cells) ==> BoundToLook(e.thread))
  {
    hide OpLocks, Nested, Ascending;
  }

  lemma OthersInformed(s: Host, t: nat, input: HostCall, u: nat)
    requires t < |s.threads| && u < |s.threads| && t != u && LockInv(s) && HookInv(s)
    ensures Informed(s.threads[u], Local(s.threads[t], s.cells, input).cells)
  {
    CellsForward(s.threads[t], s.cells, input);
    if Instance in Holds(s.threads[u]) && Instance in Holds(s.threads[t]) {
      Exclusive(s, t, Instance);
      Exclusive(s, u, Instance);
    }
  }

  lemma DueHasLooker(s: Host, t: nat, input: HostCall)
    requires t < |s.threads| && LockInv(s) && HookInv(s) && !Blocked(s, t)
    requires HookDue(Next(s, t, input).cells)
    ensures exists u :: 0 <= u < |s.threads| && BoundToLook(Next(s, t, input).threads[u])
  {
    var s' := Next(s, t, input);
    StaysBound(s.threads[t], s.cells, input);
    if HookDue(s.cells) {
      var u :| 0 <= u < |s.threads| && BoundToLook(s.threads[u]);
      assert BoundToLook(s'.threads[u]);
    } else {
      assert BoundToLook(s'.threads[t]);
    }
  }

  lemma NextKeepsHook(s: Host, t: nat, input: HostCall)
    requires t < |s.threads| && LockInv(s) && HookInv(s)
    ensures HookInv(Next(s, t, input))
  {
    if !Blocked(s, t) {
      var th, s' := s.threads[t], Next(s, t, input);
      LocalPrepared(th, s.cells, input);
      LocalDeciding(th, s.cells, input);
      LocalServed(th, s.cells, input);
      LocalReported(th, s.cells, input);
      LocalCells(th, s.cells, input);
      forall u | 0 <= u < |s.threads| ensures Informed(s'.threads[u], s'.cells) {
        if u != t {
          OthersInformed(s, t, input, u);
        }
      }
      if HookDue(s'.cells) {
        DueHasLooker(s, t, input);
      }
    }
  }

  // ----- runs -----

  datatype HostStep = HostStep(thread: nat, input: HostCall)

  /** A run under any scheduler; steps of threads that do not exist do nothing. */
  function AfterSteps(s: Host, steps: seq<HostStep>): Host {
    if steps == [] then s
    else
      var before := AfterSteps(s, Init(steps));
      if Last(steps).thread < |before.threads| then Next(before, Last(steps).thread, Last(steps).input) else before
  }

  /** `n` idle threads, nothing installed. */
  function Initial(n: nat): Host {
    Host(map[], seq(n, _ => Idle), UNSET)
  }

  lemma {:induction false} RunsKeep(s: Host, steps: seq<HostStep>)
    requires LockInv(s) && HookInv(s)
    ensures LockInv(AfterSteps(s, steps)) && HookInv(AfterSteps(s, steps))
    ensures |AfterSteps(s, steps).threads| == |s.threads|
  {
    if steps != [] {
      RunsKeep(s, Init(steps));
      var before := AfterSteps(s, Init(steps));
      if Last(steps).thread < |before.threads| {
        NextKeepsLocks(before, Last(steps).thread, Last(steps).input);
        NextKeepsHook(before, Last(steps).thread, Last(steps).input);
      }
    }
  }

  lemma ReachableHost(n: nat, steps: seq<HostStep>)
    ensures LockInv(AfterSteps(Initial(n), steps)) && HookInv(AfterSteps(Initial(n), steps))
    ensures |AfterSteps(Initial(n), steps).threads| == n
  {
    RunsKeep(Initial(n), steps);
  }

  /** No reachable deadlock: no wait cycle, and every call in progress leaves some call able to move. */
  lemma NoReachableDeadlock(n: nat, steps: seq<HostStep>)
    ensures var s := AfterSteps(Initial(n), steps);
      && (forall ts: seq<nat> :: !WaitCycle(s, ts))
      && (forall t :: 0 <= t < |s.threads| && s.threads[t].Busy? ==>
            exists u :: 0 <= u < |s.threads| && s.threads[u].Busy? && !Blocked(s, u))
  {
    var s := AfterSteps(Initial(n), steps);
    ReachableHost(n, steps);
    forall ts: seq<nat> ensures !WaitCycle(s, ts) {
      NoWaitCycle(s, ts);
    }
    forall t | 0 <= t < |s.threads| && s.threads[t].Busy?
      ensures exists u :: 0 <= u < |s.threads| && s.threads[u].Busy? && !Blocked(s, u)
    {
      var u := SomeoneMoves(s, t);
    }
  }

  /** Operations are serial, and run with REGISTERED and INSTANCE held, in every reachable state. */
  lemma ReachableSerial(n: nat, steps: seq<HostStep>, t: nat, u: nat)
    requires var s := AfterSteps(Initial(n), steps);
      && t < |s.threads| && s.threads[t].Busy? && s.threads[t].stage.Running?
      && u < |s.threads| && s.threads[u].Busy? && s.threads[u].stage.Running?
    ensures t == u
    ensures var s := AfterSteps(Initial(n), steps);
      Registered in s.holder && s.holder[Registered] == t && Instance in s.holder && s.holder[Instance] == t
  {
    var s := AfterSteps(Initial(n), steps);
    ReachableHost(n, steps);
    SerialOperations(s, t, u);
    Exclusive(s, t, Registered);
    Exclusive(s, t, Instance);
  }

  /**
    The context hook over every interleaving: it fires at most once, only with a context that was
    given; once a context and a callback are in place it has fired, or a setter still in progress is
    bound to look; and a dispatch that began with a context in place runs its operation after the hook.
   */
  lemma ContextHook(n: nat, steps: seq<HostStep>)
    ensures var s := AfterSteps(Initial(n), steps);
      && |s.cells.hooks| <= 1 && (s.cells.hookFired <==> |s.cells.hooks| == 1)
      && (forall h :: h in s.cells.hooks ==> h in s.cells.given)
      && (s.cells.context.Some? && s.cells.callback && !s.cells.hookFired ==>
            exists t :: 0 <= t < |s.threads| && BoundToLook(s.threads[t]))
      && (s.cells.context.Some? && s.cells.callback && (forall t :: 0 <= t < |s.threads| ==> s.threads[t].Idle?) ==>
            s.cells.hookFired)
      && (forall t :: 0 <= t < |s.threads| ==>
            s.threads[t].Busy? && s.threads[t].stage.Running? && s.threads[t].hadContext ==> s.cells.hookFired)
  {
    var s := AfterSteps(Initial(n), steps);
    ReachableHost(n, steps);
    forall t | 0 <= t < |s.threads| && s.threads[t].Busy? && s.threads[t].stage.Running? && s.threads[t].hadContext
      ensures s.cells.hookFired
    {
      assert Shaped(s.threads[t]) && Informed(s.threads[t], s.cells);
    }
  }

  predicate BothInPlace(c: Cells) {
    c.context.Some? && c.callback
  }

  /** Along `more`, started in `s`, the context and the callback stay in place. */
  predicate StayInPlace(s: Host, more: seq<HostStep>) {
    BothInPlace(AfterSteps(s, more).cells) && (more == [] || StayInPlace(s, Init(more)))
  }

  lemma {:induction false} BoundUntilFired(s: Host, more: seq<HostStep>, t: nat)
    requires LockInv(s) && HookInv(s) && t < |s.threads| && BoundToLook(s.threads[t]) && StayInPlace(s, more)
    ensures |AfterSteps(s, more).threads| == |s.threads|
    ensures AfterSteps(s, more).cells.hookFired || BoundToLook(AfterSteps(s, more).threads[t])
  {
    RunsKeep(s, more);
    if more != [] {
      var before := AfterSteps(s, Init(more));
      BoundUntilFired(s, Init(more), t);
      RunsKeep(s, Init(more));
      var u := Last(more).thread;
      if u < |before.threads| {
        CellsForward(before.threads[u], before.cells, Last(more).input);
        StaysBound(before.threads[u], before.cells, Last(more).input);
      }
    }
  }

  /** The step is the write of a null callback. */
  predicate Clears(s: Host, step: HostStep) {
    step.thread < |s.threads| && s.threads[step.thread].Busy? && s.threads[step.thread].stage.Write? &&
    s.threads[step.thread].call == SetEmit(false)
  }

  predicate NeverCleared(s: Host, more: seq<HostStep>) {
    more == [] || (NeverCleared(s, Init(more)) && !Clears(AfterSteps(s, Init(more)), Last(more)))
  }

  lemma {:induction false} RemainInPlace(s: Host, more: seq<HostStep>)
    requires BothInPlace(s.cells) && NeverCleared(s, more)
    ensures StayInPlace(s, more)
  {
    if more != [] {
      RemainInPlace(s, Init(more));
      var before, step := AfterSteps(s, Init(more)), Last(more);
      if step.thread < |before.threads| {
        CellsForward(before.threads[step.thread], before.cells, step.input);
        CallbackKept(before.threads[step.thread], before.cells, step.input);
      }
    }
  }

  lemma CallbackKept(th: Thread, c: Cells, input: HostCall)
    requires c.callback && !(th.Busy? && th.stage.Write? && th.call == SetEmit(false))
    ensures Local(th, c, input).cells.callback
  {
    hide OpLocks;
  }

  /**
    A setter that has written its cell and finds the other in place is past ensure_ready only after
    the hook has fired, whatever the other threads do in between, if none of them writes a null callback.
   */
  lemma LookerFires(n: nat, steps: seq<HostStep>, more: seq<HostStep>, t: nat)
    requires t < |AfterSteps(Initial(n), steps).threads|
    requires BoundToLook(AfterSteps(Initial(n), steps).threads[t])
    requires BothInPlace(AfterSteps(Initial(n), steps).cells)
    requires NeverCleared(AfterSteps(Initial(n), steps), more)
    ensures var s := AfterSteps(AfterSteps(Initial(n), steps), more);
      t < |s.threads| && (s.cells.hookFired || BoundToLook(s.threads[t]))
  {
    ReachableHost(n, steps);
    RemainInPlace(AfterSteps(Initial(n), steps), more);
    BoundUntilFired(AfterSteps(Initial(n), steps), more, t);
  }

  /** A call in progress that has yet to write a null callback. */
  predicate AboutToClear(th: Thread) {
    th.Busy? && th.call == SetEmit(false) && (th.stage.Begin? || th.stage.Write?)
  }

  predicate NoneAboutToClear(s: Host) {
    forall u :: 0 <= u < |s.threads| ==> !AboutToClear(s.threads[u])
  }

  lemma {:induction false} NoClearingCalls(s: Host, more: seq<HostStep>)
    requires NoneAboutToClear(s)
    requires forall k :: 0 <= k < |more| ==> more[k].input != SetEmit(false)
    ensures NeverCleared(s, more) && NoneAboutToClear(AfterSteps(s, more))
  {
    hide Local;
    if more != [] {
      NoClearingCalls(s, Init(more));
      assert more[|more| - 1] == Last(more);
      var before, step := AfterSteps(s, Init(more)), Last(more);
      if step.thread < |before.threads| {
        StaysUnclearing(before.threads[step.thread], before.cells, step.input);
      }
    }
  }

  lemma StaysUnclearing(th: Thread, c: Cells, input: HostCall)
    requires !AboutToClear(th) && input != SetEmit(false)
    ensures !AboutToClear(Local(th, c, input).thread)
  {
    hide OpLocks;
  }

  /** The same in terms of the host's own calls: no `set_emit_callback(null)` is under way or made. */
  lemma SetterFires(n: nat, steps: seq<HostStep>, more: seq<HostStep>, t: nat)
    requires t < |AfterSteps(Initial(n), steps).threads|
    requires BoundToLook(AfterSteps(Initial(n), steps).threads[t])
    requires BothInPlace(AfterSteps(Initial(n), steps).cells)
    requires NoneAboutToClear(AfterSteps(Initial(n), steps))
    requires forall k :: 0 <= k < |more| ==> more[k].input != SetEmit(false)
    ensures var s := AfterSteps(AfterSteps(Initial(n), steps), more);
      t < |s.threads| && (s.cells.hookFired || BoundToLook(s.threads[t]))
  {
    NoClearingCalls(AfterSteps(Initial(n), steps), more);
    LookerFires(n, steps, more, t);
  }

  // ----- exactly when the hook has fired at the end of a call -----

  /** In `s` thread `t` is at the read that `seen` records, and the cells are as it says. */
  predicate ReadsNow(s: Host, t: nat, seen: Seen) {
    t < |s.threads| && s.threads[t].Busy? &&
    var stage, c := s.threads[t].stage, s.cells;
    match seen
    case Nothing => false
    case Already => stage.InInstance? && c.hookFired
    case NoContext => stage.InContext? && c.context.None?
    case NoCallback => stage.InEmit? && !c.callback
    case AllSet =>
      if IsSetter(s.threads[t].call) then stage.InEmit? && c.callback else stage.InContext? && c.context.Some?
  }

  predicate InCallSince(s: Host, steps: seq<HostStep>, k: nat, t: nat) {
    forall m :: k <= m <= |steps| ==>
      t < |AfterSteps(s, steps[..m]).threads| && AfterSteps(s, steps[..m]).threads[t].Busy?
  }

  lemma SeenChanges(s: Host, t: nat, input: HostCall)
    requires t < |s.threads| && Shaped(s.threads[t])
    ensures var th := Local(s.threads[t], s.cells, input).thread;
      th.Busy? && !th.seen.Nothing? ==>
        s.threads[t].Busy? && (th.seen == s.threads[t].seen || ReadsNow(s, t, th.seen))
  {
    hide OpLocks, Nested, Ascending;
  }

  lemma LastRead(s: Host, u: nat, input: HostCall, t: nat)
    requires LockInv(s) && t < |s.threads| && u < |s.threads|
    requires var th := Next(s, u, input).threads[t]; th.Busy? && !th.seen.Nothing?
    ensures s.threads[t].Busy?
    ensures var seen := Next(s, u, input).threads[t].seen;
      seen == s.threads[t].seen || (u == t && ReadsNow(s, t, seen))
  {
    hide Local, ReadsNow;
    if u == t && !Blocked(s, t) {
      SeenChanges(s, t, input);
    }
  }

  /** What a call has recorded is what it read, at step `k` of the same call. */
  lemma {:induction false} SeenWasRead(n: nat, steps: seq<HostStep>, t: nat) returns (k: nat)
    requires t < |AfterSteps(Initial(n), steps).threads|
    requires var th := AfterSteps(Initial(n), steps).threads[t]; th.Busy? && !th.seen.Nothing?
    ensures k < |steps| && steps[k].thread == t
    ensures ReadsNow(AfterSteps(Initial(n), steps[..k]), t, AfterSteps(Initial(n), steps).threads[t].seen)
    ensures InCallSince(Initial(n), steps, k, t)
  {
    hide Next, ReadsNow;
    ReachableHost(n, steps);
    ReachableHost(n, Init(steps));
    var m := |steps| - 1;
    var before, step := AfterSteps(Initial(n), Init(steps)), Last(steps);
    var seen := AfterSteps(Initial(n), steps).threads[t].seen;
    assert steps[..|steps|] == steps;
    if step.thread < n {
      LastRead(before, step.thread, step.input, t);
    }
    if step.thread == t && ReadsNow(before, t, seen) {
      k := m;
    } else {
      k := SeenWasRead(n, Init(steps), t);
      assert forall i :: 0 <= i <= m ==> Init(steps)[..i] == steps[..i];
    }
  }

  /**
    Exactly when the hook has fired as a call leaves ensure: when this call read HOOK_FIRED set, or
    read in place every cell it needs, at step `k`. A setter that returns with both cells in place and
    the hook not fired is one that read a cell before the other setter wrote it.
   */
  lemma HookAtLeave(n: nat, steps: seq<HostStep>, t: nat) returns (k: nat)
    requires t < |AfterSteps(Initial(n), steps).threads|
    requires var th := AfterSteps(Initial(n), steps).threads[t]; th.Busy? && th.stage.Leave?
    ensures k < |steps| && steps[k].thread == t && InCallSince(Initial(n), steps, k, t)
    ensures var s, read := AfterSteps(Initial(n), steps), AfterSteps(Initial(n), steps[..k]);
      && ReadsNow(read, t, s.threads[t].seen)
      && (s.cells.hookFired <==> ReadsNow(read, t, Already) || ReadsNow(read, t, AllSet))
  {
    ReachableHost(n, steps);
    assert Informed(AfterSteps(Initial(n), steps).threads[t], AfterSteps(Initial(n), steps).cells);
    k := SeenWasRead(n, steps, t);
    OneReading(AfterSteps(Initial(n), steps[..k]), t, AfterSteps(Initial(n), steps).threads[t].seen);
  }

  lemma OneReading(s: Host, t: nat, seen: Seen)
    requires ReadsNow(s, t, seen)
    ensures ReadsNow(s, t, Already) || ReadsNow(s, t, AllSet) <==> seen.Already? || seen.AllSet?
  {
  }

  // ----- what the cells hold, and what the hook and the operations are given -----

  /** In `s` the step is the write of a setter. */
  predicate IsWrite(s: Host, step: HostStep) {
    step.thread < |s.threads| && s.threads[step.thread].Busy? && s.threads[step.thread].stage.Write?
  }

  /** The context of the last `set_context` to have written. */
  function LastContext(n: nat, steps: seq<HostStep>): Option<string> {
    if steps == [] then None
    else
      var before, step := AfterSteps(Initial(n), Init(steps)), Last(steps);
      if IsWrite(before, step) && before.threads[step.thread].call.SetContext?
      then Some(before.threads[step.thread].call.ctx)
      else LastContext(n, Init(steps))
  }

  /** Whether the last `set_emit_callback` to have written gave a callback. */
  function LastCallback(n: nat, steps: seq<HostStep>): bool {
    if steps == [] then false
    else
      var before, step := AfterSteps(Initial(n), Init(steps)), Last(steps);
      if IsWrite(before, step) && before.threads[step.thread].call.SetEmit?
      then before.threads[step.thread].call.callback
      else LastCallback(n, Init(steps))
  }

  lemma LocalWrites(th: Thread, c: Cells, input: HostCall)
    ensures var c', writes := Local(th, c, input).cells, th.Busy? && th.stage.Write?;
      && c'.context == (if writes && th.call.SetContext? then Some(th.call.ctx) else c.context)
      && c'.callback == (if writes && th.call.SetEmit? then th.call.callback else c.callback)
  {
    hide OpLocks, Written;
    if th.Busy? && th.stage.Write? {
      WrittenHolds(th.call, c);
    }
  }

  lemma WrittenHolds(call: HostCall, c: Cells)
    ensures Written(call, c).context == if call.SetContext? then Some(call.ctx) else c.context
    ensures Written(call, c).callback == if call.SetEmit? then call.callback else c.callback
  {
  }

  lemma WritersMove(s: Host, t: nat)
    requires t < |s.threads| && s.threads[t].Busy? && s.threads[t].stage.Write?
    ensures !Blocked(s, t)
  {
  }

  /** CONTEXT and EMIT hold what was last written to them. */
  lemma {:induction false} CellsHoldLast(n: nat, steps: seq<HostStep>)
    ensures var c := AfterSteps(Initial(n), steps).cells;
      c.context == LastContext(n, steps) && c.callback == LastCallback(n, steps)
  {
    hide Local, Blocked;
    if steps != [] {
      CellsHoldLast(n, Init(steps));
      var before, step := AfterSteps(Initial(n), Init(steps)), Last(steps);
      if step.thread < |before.threads| {
        LocalWrites(before.threads[step.thread], before.cells, step.input);
        if IsWrite(before, step) {
          WritersMove(before, step.thread);
        }
      }
    }
  }

  /** The stage carries a context on the way to the hook. */
  predicate Carries(th: Thread) {
    th.Busy? && (th.stage.WantEmit? || th.stage.InEmit? || th.stage.Fire?)
  }

  /** In `s` thread `t` reads CONTEXT and finds `ctx`. */
  predicate ReadsContext(s: Host, t: nat, ctx: string) {
    t < |s.threads| && s.threads[t].Busy? && s.threads[t].stage.InContext? && s.cells.context == Some(ctx)
  }

  lemma LocalCarries(th: Thread, c: Cells, input: HostCall)
    requires Carries(Local(th, c, input).thread)
    ensures th.Busy?
    ensures var ctx := Local(th, c, input).thread.stage.ctx;
      (Carries(th) && th.stage.ctx == ctx) || (th.stage.InContext? && c.context == Some(ctx))
  {
    hide OpLocks;
  }

  lemma CarriedChanges(s: Host, u: nat, input: HostCall, t: nat)
    requires t < |s.threads| && u < |s.threads| && Carries(Next(s, u, input).threads[t])
    ensures var ctx := Next(s, u, input).threads[t].stage.ctx;
      (Carries(s.threads[t]) && s.threads[t].stage.ctx == ctx) || (u == t && ReadsContext(s, t, ctx))
  {
    hide Local;
    if u == t && !Blocked(s, t) {
      LocalCarries(s.threads[t], s.cells, input);
    }
  }

  lemma {:induction false} CarriedWasRead(n: nat, steps: seq<HostStep>, t: nat) returns (k: nat)
    requires t < |AfterSteps(Initial(n), steps).threads| && Carries(AfterSteps(Initial(n), steps).threads[t])
    ensures k < |steps| && ReadsContext(AfterSteps(Initial(n), steps[..k]), t,
                                        AfterSteps(Initial(n), steps).threads[t].stage.ctx)
  {
    hide Next, ReadsContext;
    ReachableHost(n, steps);
    ReachableHost(n, Init(steps));
    var before, step := AfterSteps(Initial(n), Init(steps)), Last(steps);
    var ctx := AfterSteps(Initial(n), steps).threads[t].stage.ctx;
    if step.thread < n {
      CarriedChanges(before, step.thread, step.input, t);
    }
    if ReadsContext(before, t, ctx) {
      k := |steps| - 1;
    } else {
      k := CarriedWasRead(n, Init(steps), t);
      assert Init(steps)[..k] == steps[..k];
    }
  }

  lemma HooksChange(th: Thread, c: Cells, input: HostCall)
    ensures Local(th, c, input).cells.hooks ==
      if th.Busy? && th.stage.Fire? then c.hooks + [th.stage.ctx] else c.hooks
  {
    hide OpLocks;
  }

  /** The hook is called with the context that was last written when the calling thread read it, at step `k`. */
  lemma {:induction false} HookGetsContext(n: nat, steps: seq<HostStep>) returns (t: nat, k: nat)
    requires AfterSteps(Initial(n), steps).cells.hooks != []
    ensures k < |steps| && ReadsContext(AfterSteps(Initial(n), steps[..k]), t, AfterSteps(Initial(n), steps).cells.hooks[0])
    ensures LastContext(n, steps[..k]) == Some(AfterSteps(Initial(n), steps).cells.hooks[0])
  {
    hide Local, HookInv, LockInv, Blocked;
    var before, step := AfterSteps(Initial(n), Init(steps)), Last(steps);
    var hook := AfterSteps(Initial(n), steps).cells.hooks[0];
    if step.thread < |before.threads| {
      HooksChange(before.threads[step.thread], before.cells, step.input);
    }
    if before.cells.hooks != [] {
      t, k := HookGetsContext(n, Init(steps));
    } else {
      t := step.thread;
      k := CarriedWasRead(n, Init(steps), t);
    }
    assert Init(steps)[..k] == steps[..k];
    CellsHoldLast(n, steps[..k]);
  }

  /** The lock actions that thread `t` has performed in its present call. */
  function Performed(n: nat, steps: seq<HostStep>, t: nat): seq<LockAction> {
    if steps == [] then []
    else
      var s, done := AfterSteps(Initial(n), Init(steps)), Performed(n, Init(steps), t);
      if Last(steps).thread != t || t >= |s.threads| || Blocked(s, t) then done
      else match s.threads[t]
        case Idle => []
        case Busy(_, Running(todo, _), _, _) => done + todo[..if todo == [] then 0 else 1]
        case Busy(_, _, _, _) => done
  }

  /** What a dispatch has performed, given how far it has come. */
  predicate OnTrack(th: Thread, done: seq<LockAction>) {
    th.Busy? && th.call.Dispatch? ==>
      if th.stage.Running? then done + th.stage.todo == OpLocks(th.call.op)
      else if th.stage.DispatchDone? then done == OpLocks(th.call.op)
      else done == []
  }

  lemma TrackKept(th: Thread, c: Cells, input: HostCall, done: seq<LockAction>)
    requires Shaped(th) && OnTrack(th, done)
    ensures var th' := Local(th, c, input).thread;
      OnTrack(th', if th.Idle? then []
                   else if th.stage.Running? && th.stage.todo != [] then done + th.stage.todo[..1] else done)
  {
    hide OpLocks, Nested, Ascending, Written, Init;
    if th.Busy? && th.stage.Running? && th.stage.todo != [] {
      assert done + th.stage.todo[..1] + th.stage.todo[1..] == done + th.stage.todo;
    } else if th.Busy? && th.stage.Running? {
      assert done + [] == done;
    }
  }

  /** A dispatch goes through exactly the lock actions of its operation, in order, before it returns. */
  lemma {:induction false} OperationRuns(n: nat, steps: seq<HostStep>, t: nat)
    requires t < n
    ensures |AfterSteps(Initial(n), steps).threads| == n
    ensures OnTrack(AfterSteps(Initial(n), steps).threads[t], Performed(n, steps, t))
  {
    hide Local, OpLocks, Blocked;
    ReachableHost(n, steps);
    if steps != [] {
      ReachableHost(n, Init(steps));
      OperationRuns(n, Init(steps), t);
      var before, step, done := AfterSteps(Initial(n), Init(steps)), Last(steps), Performed(n, Init(steps), t);
      if step.thread == t && !Blocked(before, t) {
        TrackKept(before.threads[t], before.cells, step.input, done);
        assert done + [] == done;
      }
    }
  }

  /** A dispatch returns only after its operation. */
  lemma DispatchReturns(n: nat, steps: seq<HostStep>, t: nat, input: HostCall)
    requires t < n
    ensures var s := AfterSteps(Initial(n), steps);
      && |s.threads| == n
      && (s.threads[t].Busy? && s.threads[t].call.Dispatch? && Next(s, t, input).threads[t].Idle? ==>
            s.threads[t].stage.DispatchDone? && Performed(n, steps, t) == OpLocks(s.threads[t].call.op))
  {
    hide OpLocks, Performed, Local, AfterSteps;
    var s := AfterSteps(Initial(n), steps);
    OperationRuns(n, steps, t);
    ReachableHost(n, steps);
    assert Informed(s.threads[t], s.cells);
    if s.threads[t].Busy? && s.threads[t].call.Dispatch? && Next(s, t, input).threads[t].Idle? {
      ReturnsFrom(s.threads[t], s.cells, input);
    }
  }

  lemma ReturnsFrom(th: Thread, c: Cells, input: HostCall)
    requires th.Busy? && th.call.Dispatch? && Prepared(th, c) && Local(th, c, input).thread.Idle?
    ensures th.stage.DispatchDone?
  {
    hide OpLocks;
  }

  // ----- what does not hold -----

  lemma AfterOneMore(s: Host, steps: seq<HostStep>, t: nat, input: HostCall)
    requires t < |AfterSteps(s, steps).threads|
    ensures AfterSteps(s, steps + [HostStep(t, input)]) == Next(AfterSteps(s, steps), t, input)
  {
    SnocParts(steps, HostStep(t, input));
  }

  /** Thread 0 is in `set_context`, thread 1 idle. */
  function First(ctx: string, stage: Stage): seq<Thread> {
    [Busy(SetContext(ctx), stage, false, if stage.Leave? then NoCallback else Nothing), Idle]
  }

  /** Thread 0 takes its next step. */
  lemma StepFirst(steps: seq<HostStep>, holder: map<Lock, nat>, ctx: string, stage: Stage, c: Cells)
    returns (steps': seq<HostStep>)
    requires AfterSteps(Initial(2), steps) == Host(holder, First(ctx, stage), c)
    requires var want := Wants(First(ctx, stage)[0]); want.Some? ==> want.value !in holder
    ensures var th := First(ctx, stage)[0];
      var e := Local(th, c, SetContext(ctx));
      var taken := if Wants(th).Some? then holder[Wants(th).value := 0] else holder;
      AfterSteps(Initial(2), steps') ==
        Host(if e.drop.Some? then taken - {e.drop.value} else taken, [e.thread, Idle], e.cells)
  {
    steps' := steps + [HostStep(0, SetContext(ctx))];
    AfterOneMore(Initial(2), steps, 0, SetContext(ctx));
    var e := Local(First(ctx, stage)[0], c, SetContext(ctx));
    assert First(ctx, stage)[0 := e.thread] == [e.thread, Idle];
  }

  lemma FirstInstalls(ctx: string) returns (steps: seq<HostStep>)
    ensures AfterSteps(Initial(2), steps) ==
      Host(map[], First(ctx, ReadReg), UNSET.(context := Some(ctx), given := [ctx], registered := true))
  {
    hide AfterSteps;
    steps := FirstBegins(ctx);
    steps := StepFirst(steps, map[], ctx, Begin, UNSET);
    steps := StepFirst(steps, map[Context := 0], ctx, Write, UNSET);
    var c := UNSET.(context := Some(ctx), given := [ctx]);
    assert UNSET.given + [ctx] == [ctx];
    steps := StepFirst(steps, map[], ctx, CheckReg, c);
    steps := StepFirst(steps, map[Registered := 0], ctx, CheckingReg, c);
    steps := StepFirst(steps, map[], ctx, InstallReg, c);
    steps := StepFirst(steps, map[Registered := 0], ctx, InstallingReg, c);
  }

  lemma FirstBegins(ctx: string) returns (steps: seq<HostStep>)
    ensures AfterSteps(Initial(2), steps) == Host(map[], First(ctx, Begin), UNSET)
  {
    hide Local, OpLocks;
    var none: seq<HostStep>, s := [], Initial(2);
    steps := none + [HostStep(0, SetContext(ctx))];
    assert AfterSteps(s, none) == s;
    hide AfterSteps;
    AfterOneMore(s, none, 0, SetContext(ctx));
    FirstCall(ctx);
  }

  lemma FirstCall(ctx: string)
    ensures Next(Initial(2), 0, SetContext(ctx)) == Host(map[], First(ctx, Begin), UNSET)
  {
    var th := Busy(SetContext(ctx), Begin, false, Nothing);
    assert Initial(2).threads[0 := th] == [th, Idle];
  }

  lemma FirstEnsures(ctx: string) returns (steps: seq<HostStep>)
    ensures AfterSteps(Initial(2), steps) == Host(map[Instance := 0], First(ctx, WantContext),
      UNSET.(context := Some(ctx), given := [ctx], registered := true, instance := true))
  {
    hide AfterSteps;
    steps := FirstInstalls(ctx);
    var c := UNSET.(context := Some(ctx), given := [ctx], registered := true);
    steps := StepFirst(steps, map[], ctx, ReadReg, c);
    steps := StepFirst(steps, map[Registered := 0], ctx, ReadingReg, c);
    steps := StepFirst(steps, map[], ctx, WantInstance, c);
    steps := StepFirst(steps, map[Instance := 0], ctx, InInstance, c);
  }

  lemma FirstReads(ctx: string) returns (steps: seq<HostStep>)
    ensures AfterSteps(Initial(2), steps) == Host(map[Instance := 0], First(ctx, WantEmit(ctx)),
      UNSET.(context := Some(ctx), given := [ctx], registered := true, instance := true))
  {
    hide AfterSteps, OpLocks;
    steps := FirstEnsures(ctx);
    var c := UNSET.(context := Some(ctx), given := [ctx], registered := true, instance := true);
    steps := StepFirst(steps, map[Instance := 0], ctx, WantContext, c);
    steps := StepFirst(steps, map[Instance := 0, Context := 0], ctx, InContext, c);
    assert map[Instance := 0, Context := 0] - {Context} == map[Instance := 0 as nat];
  }

  lemma FirstLooks(ctx: string) returns (steps: seq<HostStep>)
    ensures AfterSteps(Initial(2), steps) == Host(map[Instance := 0], First(ctx, Leave),
      UNSET.(context := Some(ctx), given := [ctx], registered := true, instance := true))
  {
    hide AfterSteps, OpLocks;
    steps := FirstReads(ctx);
    var c := UNSET.(context := Some(ctx), given := [ctx], registered := true, instance := true);
    steps := StepFirst(steps, map[Instance := 0], ctx, WantEmit(ctx), c);
    steps := StepFirst(steps, map[Instance := 0, Emit := 0], ctx, InEmit(ctx), c);
    assert map[Instance := 0, Emit := 0] - {Emit} == map[Instance := 0 as nat];
  }

  /**
    A setter may return with a context and a callback in place and the hook not fired: `set_context`
    looks before `set_emit_callback` writes. The other setter is then still bound to look.
   */
  lemma SetterMayReturnFirst(ctx: string) returns (steps: seq<HostStep>)
    ensures var s := AfterSteps(Initial(2), steps);
      && s.threads == [Busy(SetContext(ctx), Leave, false, NoCallback), Busy(SetEmit(true), CheckReg, true, Nothing)]
      && !Blocked(s, 0)
      && var s' := AfterSteps(Initial(2), steps + [HostStep(0, SetEmit(true))]);
         s'.threads == [Idle, Busy(SetEmit(true), CheckReg, true, Nothing)] &&
         s'.cells.context == Some(ctx) && s'.cells.callback && !s'.cells.hookFired
  {
    var call := SetEmit(true);
    steps := FirstLooks(ctx);
    var c := UNSET.(context := Some(ctx), given := [ctx], registered := true, instance := true);
    var first := Busy(SetContext(ctx), Leave, false, NoCallback);
    var h0 := Host(map[Instance := 0], [first, Idle], c);
    var h1 := Host(map[Instance := 0], [first, Busy(call, Begin, true, Nothing)], c);
    var h2 := Host(map[Instance := 0, Emit := 1], [first, Busy(call, Write, true, Nothing)], c);
    var h3 := Host(map[Instance := 0], [first, Busy(call, CheckReg, true, Nothing)], c.(callback := true));
    SecondWrites(h0, h1, h2, h3, call, first, c);
    FirstReturns(h3, first, call, c.(callback := true));
    hide AfterSteps, Next, Local;
    AfterOneMore(Initial(2), steps, 1, call);
    steps := steps + [HostStep(1, call)];
    AfterOneMore(Initial(2), steps, 1, call);
    steps := steps + [HostStep(1, call)];
    AfterOneMore(Initial(2), steps, 1, call);
    steps := steps + [HostStep(1, call)];
    AfterOneMore(Initial(2), steps, 0, call);
  }

  lemma FirstReturns(h: Host, first: Thread, call: HostCall, c: Cells)
    requires first.Busy? && IsSetter(first.call) && first.stage.Leave?
    requires h == Host(map[Instance := 0], [first, Busy(call, CheckReg, true, Nothing)], c)
    ensures !Blocked(h, 0) && Next(h, 0, call).cells == c
    ensures Next(h, 0, call).threads == [Idle, Busy(call, CheckReg, true, Nothing)]
  {
  }

  lemma SecondWrites(h0: Host, h1: Host, h2: Host, h3: Host, call: HostCall, first: Thread, c: Cells)
    requires call == SetEmit(true) && c.context.Some?
    requires h0 == Host(map[Instance := 0], [first, Idle], c)
    requires h1 == Host(map[Instance := 0], [first, Busy(call, Begin, true, Nothing)], c)
    requires h2 == Host(map[Instance := 0, Emit := 1], [first, Busy(call, Write, true, Nothing)], c)
    requires h3 == Host(map[Instance := 0], [first, Busy(call, CheckReg, true, Nothing)], c.(callback := true))
    ensures Next(h0, 1, call) == h1 && Next(h1, 1, call) == h2 && Next(h2, 1, call) == h3
  {
    assert h0.threads[1 := Busy(call, Begin, true, Nothing)] == h1.threads;
    assert h1.threads[1 := Busy(call, Write, true, Nothing)] == h2.threads;
    assert h2.threads[1 := Busy(call, CheckReg, true, Nothing)] == h3.threads;
    assert h1.holder[Emit := 1] == h2.holder;
    assert h2.holder - {Emit} == h3.holder;
  }
}
