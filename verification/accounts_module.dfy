/**
  The module layer: the host's calls against the cache, and the events they emit. `ModuleStep` says
  what each call replies and leaves behind on a map of accounts; the methods of `AccountsModule` work
  on the cache and the account objects in place and are proved against it.
 */
module AccountsModules {
  import opened Wrappers
  import opened Errors
  import opened Sequences
  import opened Keys
  import opened Sorting
  import opened Plog
  import opened EntryUpdate
  import opened Delegations
  import opened Account
  import opened Runs
  import opened Cache

  datatype Event =
    | AccountCreated(vlad: string)
    | AccountUpdated(headCid: string)
    | PathDelegated(vlad: string, path: string)
    | PathRevoked(vlad: string, path: string)
    | ErrorEvent(error: Error)

  datatype Reply =
    | SummaryReply(summary: AccountSummary)
    | PlogReply(plog: string)
    | RemovedReply
    | ClearedReply(count: nat)
    | ValueReply(value: PlogPathValue)
    | DelegationsReply(delegations: seq<PathDelegation>)
    | ChallengeReply(challenge: UpdateChallenge)
    | CancelledReply
    | ErrorReply(error: Error)

  /** A host call; `initial` is what opening a log with the decoded key yields. */
  datatype Call =
    | CreateAccount(pubkey: string, initial: Result<Log, Error>)
    | ImportPlog(plog: string)
    | ExportPlog(vlad: string)
    | RemovePlog(vlad: string)
    | ClearCache
    | GetValue(vlad: string, path: string)
    | ListPaths(vlad: string)
    | OnAccount(vlad: string, act: Action)

  datatype ModuleState = ModuleState(accounts: map<Vlad, AccountState>, events: seq<Event>)

  /** A VLAD's canonical encoding decodes to that VLAD or not at all. */
  ghost predicate VladLaw(lib: Library) {
    forall v :: lib.decodeVlad(lib.encodeVlad(v)).Some? ==> lib.decodeVlad(lib.encodeVlad(v)).value == v
  }

  function Fail(ms: ModuleState, e: Error): (Reply, ModuleState) {
    (ErrorReply(e), ms.(events := ms.events + [ErrorEvent(e)]))
  }

  function Inserted(lib: Library, ms: ModuleState, log: Log): (Reply, ModuleState) {
    match Summary(lib, log)
    case Failure(e) => Fail(ms, e)
    case Success(summary) =>
      if lib.decodeVlad(summary.vlad).None? then Fail(ms, Encoding)
      else (SummaryReply(summary), ms.(accounts := ms.accounts[log.vlad := AccountState(log, map[])]))
  }

  /** The events a commit's outcome is announced with. */
  function CommitEvents(c: Committed): seq<Event> {
    [AccountUpdated(c.summary.headCid)] +
    if c.path.None? then []
    else match c.kind
      case DelegateKind => [PathDelegated(c.summary.vlad, c.path.value)]
      case RevokeKind => [PathRevoked(c.summary.vlad, c.path.value)]
      case EntryKind => []
  }

  function OutcomeEvents(o: Outcome): seq<Event> {
    match o
    case Appended(c) => CommitEvents(c)
    case Rejected(e) => [ErrorEvent(e)]
    case _ => []
  }

  function OutcomeReply(o: Outcome): Reply {
    match o
    case Offered(challenge) => ChallengeReply(challenge)
    case Appended(c) => SummaryReply(c.summary)
    case Cancelled => CancelledReply
    case Rejected(e) => ErrorReply(e)
  }

  function ModuleStep(lib: Library, ms: ModuleState, call: Call): (Reply, ModuleState) {
    match call
    case CreateAccount(pubkey, initial) =>
      if lib.decodeMultikey(pubkey).None? then Fail(ms, Encoding)
      else if initial.Failure? then Fail(ms, initial.error)
      else if !Verified(lib, initial.value) then Fail(ms, PlogVerifyFailed)
      else
        var created := AccountCreated(lib.encodeVlad(initial.value.vlad));
        Inserted(lib, ms.(events := ms.events + [created]), initial.value)
    case ImportPlog(plog) =>
      if lib.decodePlog(plog).None? then Fail(ms, Encoding)
      else Inserted(lib, ms, lib.decodePlog(plog).value)
    case ClearCache => (ClearedReply(|ms.accounts|), ms.(accounts := map[]))
    case _ =>
      match Lookup(lib, ms.accounts, call.vlad)
      case Failure(e) => Fail(ms, e)
      case Success(v) => OnCached(lib, ms, v, call)
  }

  function OnCached(lib: Library, ms: ModuleState, v: Vlad, call: Call): (Reply, ModuleState)
    requires v in ms.accounts && !call.CreateAccount? && !call.ImportPlog? && !call.ClearCache?
  {
    var st := ms.accounts[v];
    match call
    case ExportPlog(_) => (PlogReply(lib.encodePlog(st.log)), ms)
    case RemovePlog(_) => (RemovedReply, ms.(accounts := ms.accounts - {v}))
    case GetValue(_, path) =>
      (match PlogValueAt(lib, st.log, path)
       case Success(value) => (ValueReply(value), ms)
       case Failure(e) => Fail(ms, e))
    case ListPaths(_) =>
      if Verified(lib, st.log) then (DelegationsReply(Grants(lib, st.log)), ms) else Fail(ms, PlogVerifyFailed)
    case OnAccount(_, act) =>
      var (o, st') := Step(lib, st, act);
      (OutcomeReply(o), ModuleState(ms.accounts[v := st'], ms.events + OutcomeEvents(o)))
  }

  lemma ActionStep(lib: Library, ms: ModuleState, vlad: string, act: Action)
    ensures ModuleStep(lib, ms, OnAccount(vlad, act)) ==
      match Lookup(lib, ms.accounts, vlad)
      case Failure(e) => Fail(ms, e)
      case Success(v) =>
        var (o, st') := Step(lib, ms.accounts[v], act);
        (OutcomeReply(o), ModuleState(ms.accounts[v := st'], ms.events + OutcomeEvents(o)))
  {
  }

  class AccountsModule {
    const lib: Library
    const cache: AccountCache
    var events: seq<Event>

    ghost predicate Valid()
      reads this, cache, cache.entries.Values
    {
      HashLaw(lib) && VladLaw(lib) && cache.lib == lib && cache.Valid()
    }

    ghost function State(): ModuleState
      reads this, cache
    {
      ModuleState(cache.view, events)
    }

    constructor (lib: Library)
      requires HashLaw(lib) && VladLaw(lib)
      ensures this.lib == lib && Valid() && State() == ModuleState(map[], []) && fresh(cache)
    {
      this.lib := lib;
      this.cache := new AccountCache(lib);
      this.events := [];
    }

    method Emit(e: Event)
      modifies this`events
      ensures events == old(events) + [e]
    {
      events := events + [e];
    }

    method ErrJson(e: Error) returns (reply: Reply)
      modifies this`events
      ensures reply == ErrorReply(e) && events == old(events) + [ErrorEvent(e)]
    {
      Emit(ErrorEvent(e));
      reply := ErrorReply(e);
    }

    method CreateAccount(pubkey: string, initial: Result<Log, Error>) returns (reply: Reply)
      requires Valid()
      modifies this`events, cache
      ensures Valid()
      ensures (reply, State()) == ModuleStep(lib, old(State()), Call.CreateAccount(pubkey, initial))
    {
      var created := PlogAccount.Create(lib, pubkey, initial);
      if created.Failure? {
        reply := ErrJson(created.error);
        return;
      }
      var (account, summary) := created.value;
      Emit(AccountCreated(summary.vlad));
      var inserted := cache.Insert(summary.vlad, account);
      if inserted.Failure? {
        reply := ErrJson(inserted.error);
        return;
      }
      reply := SummaryReply(summary);
    }

    method ImportPlog(plog: string) returns (reply: Reply)
      requires Valid()
      modifies this`events, cache
      ensures Valid()
      ensures (reply, State()) == ModuleStep(lib, old(State()), Call.ImportPlog(plog))
    {
      var imported := PlogAccount.Import(lib, plog);
      if imported.Failure? {
        reply := ErrJson(imported.error);
        return;
      }
      var (account, summary) := imported.value;
      var inserted := cache.Insert(summary.vlad, account);
      if inserted.Failure? {
        reply := ErrJson(inserted.error);
        return;
      }
      reply := SummaryReply(summary);
    }

    method ExportPlog(vlad: string) returns (reply: Reply)
      requires Valid()
      modifies this`events
      ensures Valid()
      ensures (reply, State()) == ModuleStep(lib, old(State()), Call.ExportPlog(vlad))
    {
      var entry := cache.Get(vlad);
      if entry.Failure? {
        reply := ErrJson(entry.error);
        return;
      }
      reply := PlogReply(lib.encodePlog(entry.value.log));
    }

    method RemovePlog(vlad: string) returns (reply: Reply)
      requires Valid()
      modifies this`events, cache
      ensures Valid()
      ensures (reply, State()) == ModuleStep(lib, old(State()), Call.RemovePlog(vlad))
    {
      var removed := cache.Remove(vlad);
      if removed.Failure? {
        reply := ErrJson(removed.error);
        return;
      }
      reply := RemovedReply;
    }

    method ClearCache() returns (reply: Reply)
      requires Valid()
      modifies cache
      ensures Valid()
      ensures (reply, State()) == ModuleStep(lib, old(State()), Call.ClearCache)
    {
      var n := cache.Clear();
      reply := ClearedReply(n);
    }

    method GetValue(vlad: string, path: string) returns (reply: Reply)
      requires Valid()
      modifies this`events
      ensures Valid()
      ensures (reply, State()) == ModuleStep(lib, old(State()), Call.GetValue(vlad, path))
    {
      hide Step, Inserted, Verified, PlogValueAt, Grants;
      var entry := cache.Get(vlad);
      if entry.Failure? {
        reply := ErrJson(entry.error);
        return;
      }
      var value := GetPlogValue(lib, entry.value.log, path);
      if value.Failure? {
        reply := ErrJson(value.error);
        return;
      }
      reply := ValueReply(value.value);
    }

    method ListPaths(vlad: string) returns (reply: Reply)
      requires Valid()
      modifies this`events
      ensures Valid()
      ensures (reply, State()) == ModuleStep(lib, old(State()), Call.ListPaths(vlad))
    {
      hide Step, Inserted, Verified, PlogValueAt, Grants;
      var entry := cache.Get(vlad);
      if entry.Failure? {
        reply := ErrJson(entry.error);
        return;
      }
      var list := ListDelegations(lib, entry.value.log);
      if list.Failure? {
        reply := ErrJson(list.error);
        return;
      }
      reply := DelegationsReply(list.value);
    }

    /** Runs one account operation under the account's lock and announces its outcome. */
    method OnAccount(vlad: string, act: Action) returns (reply: Reply)
      requires Valid()
      modifies this`events, cache`view, cache.entries.Values
      ensures Valid() && cache.entries == old(cache.entries)
      ensures (reply, State()) == ModuleStep(lib, old(State()), Call.OnAccount(vlad, act))
    {
      hide ModuleStep, Step, HashLaw, VladLaw;
      ActionStep(lib, State(), vlad, act);
      var entry := cache.Get(vlad);
      if entry.Failure? {
        reply := ErrJson(entry.error);
        return;
      }
      ghost var v := lib.decodeVlad(vlad).value;
      var o := RunCached(v, entry.value, act);
      reply := Announce(o);
    }

    /** An action on a cached account changes that account's slot of the cache and no other. */
    method RunCached(ghost v: Vlad, account: PlogAccount, act: Action) returns (o: Outcome)
      requires Valid() && v in cache.view && VladHash(lib, v) in cache.entries
      requires cache.entries[VladHash(lib, v)] == account
      modifies cache`view, account
      ensures Valid() && cache.entries == old(cache.entries)
      ensures (o, account.State()) == Step(lib, old(cache.view)[v], act)
      ensures cache.view == old(cache.view)[v := account.State()]
    {
      forall h | h in cache.entries && h != VladHash(lib, v) ensures cache.entries[h] != account {
        cache.OneSlotEach(h, VladHash(lib, v));
      }
      StepKeepsVlad(lib, account.State(), act);
      o := RunAction(account, act);
      cache.Refresh(v);
    }

    method RunAction(account: PlogAccount, act: Action) returns (o: Outcome)
      requires account.lib == lib
      modifies account
      ensures (o, account.State()) == Step(lib, old(account.State()), act)
    {
      match act
      case PrepareUpdate(req, id, now, at) =>
        var r := account.PrepareUpdate(req, id, now, at);
        o := if r.Success? then Offered(r.value) else Rejected(r.error);
      case PrepareDelegate(path, pubkey, id, now, at) =>
        var r := account.PrepareDelegate(path, pubkey, id, now, at);
        o := if r.Success? then Offered(r.value) else Rejected(r.error);
      case PrepareRevoke(path, id, now, at) =>
        var r := account.PrepareRevoke(path, id, now, at);
        o := if r.Success? then Offered(r.value) else Rejected(r.error);
      case Commit(id, signature, now) =>
        var r := account.CommitUpdate(id, signature, now);
        o := if r.Success? then Appended(r.value) else Rejected(r.error);
      case Cancel(id, now) =>
        var r := account.CancelUpdate(id, now);
        o := if r.Success? then Cancelled else Rejected(r.error);
    }

    method Announce(o: Outcome) returns (reply: Reply)
      modifies this`events
      ensures reply == OutcomeReply(o) && events == old(events) + OutcomeEvents(o)
    {
      match o
      case Offered(challenge) => reply := ChallengeReply(challenge);
      case Appended(c) =>
        Emit(AccountUpdated(c.summary.headCid));
        if c.path.Some? {
          match c.kind
          case DelegateKind => Emit(PathDelegated(c.summary.vlad, c.path.value));
          case RevokeKind => Emit(PathRevoked(c.summary.vlad, c.path.value));
          case EntryKind =>
        }
        reply := SummaryReply(c.summary);
      case Cancelled => reply := CancelledReply;
      case Rejected(e) => reply := ErrJson(e);
    }
  }

  /** No account operation changes which VLAD the account has. */
  lemma StepKeepsVlad(lib: Library, st: AccountState, a: Action)
    ensures Step(lib, st, a).1.log.vlad == st.log.vlad
  {
  }
}
