/**
  The lock protocol of the scaffold against the module layer: which path each host call takes through its
  operation, and that the locks on that path are the ones its effects need.
 */
module LockTrace {
  import opened Wrappers
  import opened Errors
  import opened Sequences
  import opened Plog
  import opened Delegations
  import opened Account
  import opened Runs
  import opened Cache
  import opened AccountsModules
  import opened ModuleRuns
  import S = Scaffold

  function MethodOf(call: Call): S.Method {
    match call
    case CreateAccount(_, _) => S.CreateAccount
    case ImportPlog(_) => S.ImportPlog
    case ExportPlog(_) => S.ExportPlog
    case RemovePlog(_) => S.RemovePlog
    case ClearCache => S.ClearCache
    case GetValue(_, _) => S.GetValue
    case ListPaths(_) => S.ListDelegations
    case OnAccount(_, act) =>
      match act
      case PrepareUpdate(_, _, _, _) => S.PrepareUpdate
      case PrepareDelegate(_, _, _, _, _) => S.PrepareDelegate
      case PrepareRevoke(_, _, _, _) => S.PrepareRevoke
      case Commit(_, _, _) => S.CommitUpdate
      case Cancel(_, _) => S.CancelUpdate
  }

  /** The path a call takes in a given state; `ids` numbers the account locks. */
  function PathOf(lib: Library, ms: ModuleState, call: Call, ids: Vlad -> nat): S.Operation {
    var m := MethodOf(call);
    match call
    case CreateAccount(pubkey, initial) =>
      var ok := lib.decodeMultikey(pubkey).Some? && initial.Success? && Verified(lib, initial.value);
      S.Operation(m, 0, ok && lib.decodeVlad(lib.encodeVlad(initial.value.vlad)).Some?, false, ok, false)
    case ImportPlog(plog) =>
      var ok := lib.decodePlog(plog).Some? && Verified(lib, lib.decodePlog(plog).value);
      S.Operation(m, 0, ok && lib.decodeVlad(lib.encodeVlad(lib.decodePlog(plog).value.vlad)).Some?, false, ok, false)
    case ClearCache => S.Operation(m, 0, true, false, true, false)
    case _ =>
      var keyed := lib.decodeVlad(call.vlad).Some?;
      if !Lookup(lib, ms.accounts, call.vlad).Success? then S.Operation(m, 0, keyed, false, false, false)
      else
        var v := Lookup(lib, ms.accounts, call.vlad).value;
        var reply := ModuleStep(lib, ms, call).0;
        S.Operation(m, ids(v), keyed, true, !reply.ErrorReply?, PathEvent(lib, ms.accounts[v], call))
  }

  predicate PathEvent(lib: Library, st: AccountState, call: Call) {
    call.OnAccount? &&
    var o := Step(lib, st, call.act).0;
    o.Appended? && o.committed.path.Some? && !o.committed.kind.EntryKind?
  }

  /** How often a list of lock actions takes a lock. */
  function Takes(todo: seq<S.LockAction>, l: S.Lock): nat {
    if todo == [] then 0 else (if todo[0] == S.Take(l) then 1 else 0) + Takes(todo[1..], l)
  }

  lemma {:induction false} TakesAppend(a: seq<S.LockAction>, b: seq<S.LockAction>, l: S.Lock)
    ensures Takes(a + b, l) == Takes(a, l) + Takes(b, l)
  {
    if a == [] {
      assert a + b == b;
    } else {
      TakesAppend(a[1..], b, l);
      assert (a + b)[1..] == a[1..] + b;
    }
  }

  lemma TakesHold(k: S.Lock, inside: seq<S.LockAction>, l: S.Lock)
    ensures Takes(S.Hold(k, inside), l) == (if k == l then 1 else 0) + Takes(inside, l)
  {
    assert S.Hold(k, inside) == [S.Take(k)] + (inside + [S.Drop(k)]);
    TakesAppend([S.Take(k)], inside + [S.Drop(k)], l);
    TakesAppend(inside, [S.Drop(k)], l);
    TakesOne(S.Take(k), l);
    TakesOne(S.Drop(k), l);
  }

  lemma TakesOne(a: S.LockAction, l: S.Lock)
    ensures Takes([a], l) == if a == S.Take(l) then 1 else 0
  {
    assert [a][1..] == [];
  }

  lemma TakesOnce(k: S.Lock, l: S.Lock)
    ensures Takes(S.Once(k), l) == if k == l then 1 else 0
  {
    TakesHold(k, [], l);
  }

  /** What is taken under the account lock. */
  lemma TakesUnder(op: S.Operation, l: S.Lock)
    ensures Takes(S.UnderAccount(op), l) ==
      if l != S.Emit || op.m.ExportPlog? then 0
      else if !op.ok then 1
      else if op.m.CommitUpdate? then (if op.path then 2 else 1) else 0
  {
    hide S.Once;
    TakesOnce(S.Emit, l);
    TakesAppend(S.Once(S.Emit), S.Once(S.Emit), l);
    assert S.Once(S.Emit) + [] == S.Once(S.Emit);
  }

  /** EMIT, the cache map and the account lock: how often an operation takes each on its path. */
  lemma TakesOfPath(op: S.Operation, l: S.Lock)
    ensures Takes(S.OpLocks(op), l) ==
      if op.m.Unrouted? then 0
      else if op.m.ClearCache? then (if l == S.CacheMap then 1 else 0)
      else if op.m.CreateAccount? then
        (if l == S.Emit then (if op.ok && !op.keyed then 2 else 1) else if l == S.CacheMap && op.ok && op.keyed then 1 else 0)
      else if op.m.ImportPlog? then
        (if l == (if op.ok && op.keyed then S.CacheMap else S.Emit) then 1 else 0)
      else if !op.keyed then (if l == S.Emit then 1 else 0)
      else (if l == S.CacheMap then 1 else 0) +
           (if !op.found then (if l == S.Emit then 1 else 0)
            else if op.m.RemovePlog? then 0
            else (if l == S.AccountLock(op.account) then 1 else 0) + Takes(S.UnderAccount(op), l))
  {
    hide S.Once, S.Hold, S.UnderAccount, Takes;
    TakesNone(l);
    TakesOnce(S.Emit, l);
    TakesOnce(S.CacheMap, l);
    TakesHold(S.AccountLock(op.account), S.UnderAccount(op), l);
    TakesAppend(S.Once(S.Emit), S.Once(S.CacheMap), l);
    TakesAppend(S.Once(S.Emit), S.Once(S.Emit), l);
    TakesAppend(S.Once(S.CacheMap), S.Once(S.Emit), l);
    TakesAppend(S.Once(S.CacheMap), [], l);
    TakesAppend(S.Once(S.CacheMap), S.Hold(S.AccountLock(op.account), S.UnderAccount(op)), l);
  }

  lemma TakesNone(l: S.Lock)
    ensures Takes([], l) == 0
  {
  }

  /** EMIT is taken exactly once per event of the trace. */
  lemma EmitPerEvent(lib: Library, ms: ModuleState, call: Call, ids: Vlad -> nat)
    ensures var ms' := ModuleStep(lib, ms, call).1;
      |ms'.events| == |ms.events| + Takes(S.OpLocks(PathOf(lib, ms, call, ids)), S.Emit)
  {
    var op := PathOf(lib, ms, call, ids);
    EventsAppended(lib, ms, call);
    TakesOfPath(op, S.Emit);
    TakesUnder(op, S.Emit);
    hide Takes, S.OpLocks, S.UnderAccount, Summary, PlogValueAt, Grants, Verified, Step;
    EventCount(lib, ms, call, ids);
  }

  lemma EventCount(lib: Library, ms: ModuleState, call: Call, ids: Vlad -> nat)
    ensures var op := PathOf(lib, ms, call, ids);
      |NewEvents(lib, ms, call)| ==
        if op.m.ClearCache? then 0
        else if op.m.CreateAccount? then (if op.ok && !op.keyed then 2 else 1)
        else if op.m.ImportPlog? then (if op.ok && op.keyed then 0 else 1)
        else if !op.keyed || !op.found then 1
        else if op.m.ExportPlog? || op.m.RemovePlog? then 0
        else if !op.ok then 1
        else if op.m.CommitUpdate? then (if op.path then 2 else 1) else 0
  {
    hide PlogValueAt, Grants, Verified, Step;
    match call
    case CreateAccount(pubkey, initial) =>
    case ImportPlog(plog) =>
      if lib.decodePlog(plog).Some? && Verified(lib, lib.decodePlog(plog).value) {
        SummarySucceeds(lib, lib.decodePlog(plog).value);
      }
    case OnAccount(vlad, act) =>
      if Lookup(lib, ms.accounts, vlad).Success? {
        OutcomesOf(lib, ms.accounts[Lookup(lib, ms.accounts, vlad).value], act);
      }
    case _ =>
  }

  /** Which outcomes each kind of action has. */
  lemma OutcomesOf(lib: Library, st: AccountState, act: Action)
    ensures var o := Step(lib, st, act).0;
      && (o.Appended? ==> act.Commit?) && (act.Commit? ==> o.Appended? || o.Rejected?)
  {
    hide AfterPrepare, UpdateSpec, DelegateSpec, RevokeSpec, AfterCommit;
  }

  /** A call reads or changes an account only with that account's lock taken, once, after the cache map's. */
  lemma AccountLockTaken(lib: Library, ms: ModuleState, call: Call, ids: Vlad -> nat, v: Vlad)
    requires v in ms.accounts
    requires (call.OnAccount? || call.ExportPlog? || call.GetValue? || call.ListPaths?) && lib.decodeVlad(call.vlad) == Some(v)
    ensures var locks := S.OpLocks(PathOf(lib, ms, call, ids));
      && Takes(locks, S.AccountLock(ids(v))) == 1 && Takes(locks, S.CacheMap) == 1
      && locks[0] == S.Take(S.CacheMap) && locks[2] == S.Take(S.AccountLock(ids(v)))
      && Last(locks) == S.Drop(S.AccountLock(ids(v)))
  {
    var op := PathOf(lib, ms, call, ids);
    TakesOfPath(op, S.AccountLock(ids(v)));
    TakesOfPath(op, S.CacheMap);
    TakesUnder(op, S.AccountLock(ids(v)));
    TakesUnder(op, S.CacheMap);
    assert S.OpLocks(op) == S.Once(S.CacheMap) + S.Hold(S.AccountLock(ids(v)), S.UnderAccount(op));
  }

  /** The set of cached accounts changes only with the cache map's lock taken. */
  lemma CacheLockTaken(lib: Library, ms: ModuleState, call: Call, ids: Vlad -> nat)
    requires ModuleStep(lib, ms, call).1.accounts.Keys != ms.accounts.Keys
    ensures Takes(S.OpLocks(PathOf(lib, ms, call, ids)), S.CacheMap) == 1
  {
    var op := PathOf(lib, ms, call, ids);
    TakesOfPath(op, S.CacheMap);
    TakesUnder(op, S.CacheMap);
    hide Takes, S.OpLocks, S.UnderAccount, PlogValueAt, Grants, Step;
  }
}
