/** Whole runs of the module: accounts, and the event trace as a witness of their logs and grants. */
module ModuleRuns {
  import opened Wrappers
  import opened Errors
  import opened Sequences
  import opened Keys
  import opened Sorting
  import opened Plog
  import opened EntryUpdate
  import opened Delegations
  import opened Account
  import opened Runs
  import opened Refinement
  import opened Hex
  import opened Cache
  import opened AccountsModules

  function AfterCalls(lib: Library, ms: ModuleState, calls: seq<Call>): ModuleState {
    if calls == [] then ms else ModuleStep(lib, AfterCalls(lib, ms, Init(calls)), Last(calls)).1
  }

  predicate ModuleInv(lib: Library, ms: ModuleState) {
    forall v :: v in ms.accounts ==> AccountInv(lib, ms.accounts[v]) && ms.accounts[v].log.vlad == v
  }

  /** The call creates or imports an account for `v`. */
  predicate BringsIn(lib: Library, call: Call, v: Vlad) {
    match call
    case CreateAccount(_, initial) => initial.Success? && initial.value.vlad == v
    case ImportPlog(plog) => lib.decodePlog(plog).Some? && lib.decodePlog(plog).value.vlad == v
    case _ => false
  }

  /** The call creates, replaces or drops the account of `v`. */
  predicate Replaces(lib: Library, call: Call, v: Vlad) {
    BringsIn(lib, call, v) || (call.RemovePlog? && lib.decodeVlad(call.vlad) == Some(v)) || call.ClearCache?
  }

  predicate ActsOn(lib: Library, call: Call, v: Vlad) {
    call.OnAccount? && lib.decodeVlad(call.vlad) == Some(v)
  }

  /** An account changes only through a call that replaces it or an action on any spelling of its VLAD. */
  lemma AccountFrame(lib: Library, ms: ModuleState, call: Call, v: Vlad)
    requires v in ms.accounts && !Replaces(lib, call, v)
    ensures v in ModuleStep(lib, ms, call).1.accounts
    ensures ModuleStep(lib, ms, call).1.accounts[v] ==
      if ActsOn(lib, call, v) then Step(lib, ms.accounts[v], call.act).1 else ms.accounts[v]
  {
  }

  /** The actions of a run of calls that reach the account of `v`, under any spelling of its VLAD. */
  function ActionsOn(lib: Library, calls: seq<Call>, v: Vlad): seq<Action> {
    if calls == [] then []
    else ActionsOn(lib, Init(calls), v) + if ActsOn(lib, Last(calls), v) then [Last(calls).act] else []
  }

  predicate NoneReplaces(lib: Library, calls: seq<Call>, v: Vlad) {
    forall j :: 0 <= j < |calls| ==> !Replaces(lib, calls[j], v)
  }

  /**
    Accounts do not interfere: over any run of calls in which an account is not replaced, it goes
    through exactly the run of its own actions, whatever the calls on other accounts did in between.
   */
  lemma {:induction false} AccountProjection(lib: Library, ms: ModuleState, calls: seq<Call>, v: Vlad)
    requires v in ms.accounts && NoneReplaces(lib, calls, v)
    ensures v in AfterCalls(lib, ms, calls).accounts
    ensures AfterCalls(lib, ms, calls).accounts[v] == After(lib, ms.accounts[v], ActionsOn(lib, calls, v))
  {
    hide ModuleStep, Step;
    if calls != [] {
      AccountProjection(lib, ms, Init(calls), v);
      assert calls[|calls| - 1] == Last(calls);
      AccountFrame(lib, AfterCalls(lib, ms, Init(calls)), Last(calls), v);
      if ActsOn(lib, Last(calls), v) {
        SnocParts(ActionsOn(lib, Init(calls), v), Last(calls).act);
      } else {
        assert ActionsOn(lib, Init(calls), v) + [] == ActionsOn(lib, Init(calls), v);
      }
    }
  }

  /** Re-importing replaces one account, without its pending challenges, and leaves all others alone. */
  lemma ReimportDropsOnly(lib: Library, ms: ModuleState, plog: string)
    requires VladDecodes(lib) && lib.decodePlog(plog).Some? && Verified(lib, lib.decodePlog(plog).value)
    ensures var log := lib.decodePlog(plog).value;
      var (reply, ms') := ModuleStep(lib, ms, ImportPlog(plog));
      && ms' == ms.(accounts := ms.accounts[log.vlad := AccountState(log, map[])])
      && reply.SummaryReply? && Summary(lib, log) == Success(reply.summary)
  {
    SummarySucceeds(lib, lib.decodePlog(plog).value);
  }

  ghost predicate VladDecodes(lib: Library) {
    forall v :: lib.decodeVlad(lib.encodeVlad(v)) == Some(v)
  }

  /**
    After an import the account's run starts over from the imported log with nothing pending, and every
    other account goes on with its own run as if the import had not been there.
   */
  lemma ImportStartsOver(lib: Library, ms: ModuleState, plog: string, calls: seq<Call>, w: Vlad)
    requires VladDecodes(lib) && lib.decodePlog(plog).Some? && Verified(lib, lib.decodePlog(plog).value)
    requires NoneReplaces(lib, calls, w) && (w in ms.accounts || w == lib.decodePlog(plog).value.vlad)
    ensures var log, ms' := lib.decodePlog(plog).value, AfterCalls(lib, ModuleStep(lib, ms, ImportPlog(plog)).1, calls);
      && w in ms'.accounts
      && (w == log.vlad ==> ms'.accounts[w] == After(lib, AccountState(log, map[]), ActionsOn(lib, calls, w)))
      && (w != log.vlad ==>
            var without := AfterCalls(lib, ms, calls);
            w in without.accounts && ms'.accounts[w] == without.accounts[w])
  {
    hide ModuleStep, Step;
    ReimportDropsOnly(lib, ms, plog);
    AccountProjection(lib, ModuleStep(lib, ms, ImportPlog(plog)).1, calls, w);
    if w != lib.decodePlog(plog).value.vlad {
      AccountProjection(lib, ms, calls, w);
    }
  }

  /** Importing what was exported puts the account back to the log it had then, whatever happened since. */
  lemma ExportRestores(lib: Library, ms: ModuleState, vlad: string, v: Vlad, between: seq<Call>, calls: seq<Call>)
    requires VladDecodes(lib) && ModuleInv(lib, ms) && lib.decodeVlad(vlad) == Some(v) && v in ms.accounts
    requires lib.decodePlog(lib.encodePlog(ms.accounts[v].log)) == Some(ms.accounts[v].log)
    requires NoneReplaces(lib, calls, v)
    ensures var reply := ModuleStep(lib, ms, ExportPlog(vlad)).0;
      && reply.PlogReply?
      && var ms' := AfterCalls(lib, ModuleStep(lib, AfterCalls(lib, ms, between), ImportPlog(reply.plog)).1, calls);
         v in ms'.accounts &&
         ms'.accounts[v] == After(lib, AccountState(ms.accounts[v].log, map[]), ActionsOn(lib, calls, v))
  {
    ExportImport(lib, ms, vlad, v);
    hide ModuleStep, Step;
    ImportStartsOver(lib, AfterCalls(lib, ms, between), lib.encodePlog(ms.accounts[v].log), calls, v);
  }

  /** Exporting a reachable account and importing the text gives back its log, with nothing pending. */
  lemma ExportImport(lib: Library, ms: ModuleState, vlad: string, v: Vlad)
    requires VladDecodes(lib) && ModuleInv(lib, ms) && lib.decodeVlad(vlad) == Some(v) && v in ms.accounts
    requires lib.decodePlog(lib.encodePlog(ms.accounts[v].log)) == Some(ms.accounts[v].log)
    ensures var (reply, ms') := ModuleStep(lib, ms, ExportPlog(vlad));
      && reply.PlogReply? && ms' == ms
      && ModuleStep(lib, ms', ImportPlog(reply.plog)).1 ==
           ms.(accounts := ms.accounts[v := ms.accounts[v].(pending := map[])])
  {
  }

  // ----- replies -----

  /** A call that fails says so once, in its reply and as the last event; any other emits no error event. */
  lemma ErrorsAnnounced(lib: Library, ms: ModuleState, call: Call)
    ensures var (reply, ms') := ModuleStep(lib, ms, call);
      && ms.events <= ms'.events
      && var added := ms'.events[|ms.events|..];
         && (reply.ErrorReply? ==> added != [] && Last(added) == ErrorEvent(reply.error))
         && (forall i :: 0 <= i < |added| && (reply.ErrorReply? ==> i < |added| - 1) ==> !added[i].ErrorEvent?)
  {
    EventsAppended(lib, ms, call);
    hide Step, Summary, PlogValueAt, Grants, Verified;
  }

  /** A failed call that is no action on an account leaves every account as it was, and so does every read. */
  lemma FailureChangesNothing(lib: Library, ms: ModuleState, call: Call)
    requires ModuleStep(lib, ms, call).0.ErrorReply? || call.ExportPlog? || call.GetValue? || call.ListPaths?
    requires !call.OnAccount?
    ensures ModuleStep(lib, ms, call).1.accounts == ms.accounts
  {
  }

  /** A created account is filed with nothing pending, announced, and its summary replied. */
  lemma CreatedIsFiled(lib: Library, ms: ModuleState, pubkey: string, log: Log)
    requires VladDecodes(lib) && lib.decodeMultikey(pubkey).Some? && Verified(lib, log)
    ensures var (reply, ms') := ModuleStep(lib, ms, CreateAccount(pubkey, Success(log)));
      && reply.SummaryReply? && Summary(lib, log) == Success(reply.summary)
      && ms' == ModuleState(ms.accounts[log.vlad := AccountState(log, map[])],
                            ms.events + [AccountCreated(lib.encodeVlad(log.vlad))])
  {
    SummarySucceeds(lib, log);
  }

  lemma ReadReplies(lib: Library, ms: ModuleState, v: Vlad, vlad: string, path: string)
    requires v in ms.accounts && lib.decodeVlad(vlad) == Some(v)
    ensures var log := ms.accounts[v].log;
      && ModuleStep(lib, ms, GetValue(vlad, path)).0 ==
           (match PlogValueAt(lib, log, path) case Success(x) => ValueReply(x) case Failure(e) => ErrorReply(e))
      && ModuleStep(lib, ms, ListPaths(vlad)).0 ==
           (if Verified(lib, log) then DelegationsReply(Grants(lib, log)) else ErrorReply(PlogVerifyFailed))
      && ModuleStep(lib, ms, ExportPlog(vlad)).0 == PlogReply(lib.encodePlog(log))
  {
    hide PlogValueAt, Grants, Verified;
  }

  /** After any run of calls in which the account is not replaced, reads reply what its own history gives. */
  lemma ReadsAfterRun(lib: Library, ms: ModuleState, calls: seq<Call>, v: Vlad, vlad: string, path: string)
    requires v in ms.accounts && NoneReplaces(lib, calls, v) && lib.decodeVlad(vlad) == Some(v)
    ensures var (ms', log) := (AfterCalls(lib, ms, calls), After(lib, ms.accounts[v], ActionsOn(lib, calls, v)).log);
      && ModuleStep(lib, ms', GetValue(vlad, path)).0 ==
           (match PlogValueAt(lib, log, path) case Success(x) => ValueReply(x) case Failure(e) => ErrorReply(e))
      && ModuleStep(lib, ms', ListPaths(vlad)).0 ==
           (if Verified(lib, log) then DelegationsReply(Grants(lib, log)) else ErrorReply(PlogVerifyFailed))
      && ModuleStep(lib, ms', ExportPlog(vlad)).0 == PlogReply(lib.encodePlog(log))
  {
    hide AfterCalls, After, ModuleStep, PlogValueAt, Grants, Verified;
    AccountProjection(lib, ms, calls, v);
    ReadReplies(lib, AfterCalls(lib, ms, calls), v, vlad, path);
  }

  /** The reply in which the host sees an outcome. */
  predicate Shows(reply: Reply, o: Outcome) {
    match o
    case Offered(c) => reply == ChallengeReply(c)
    case Appended(c) => reply == SummaryReply(c.summary)
    case Cancelled => reply == CancelledReply
    case Rejected(e) => reply == ErrorReply(e)
  }

  /** An action replies its outcome on the account's own history. */
  lemma ActionsAfterRun(lib: Library, ms: ModuleState, calls: seq<Call>, v: Vlad, vlad: string, act: Action)
    requires v in ms.accounts && NoneReplaces(lib, calls, v) && lib.decodeVlad(vlad) == Some(v)
    ensures Shows(ModuleStep(lib, AfterCalls(lib, ms, calls), OnAccount(vlad, act)).0,
                  Step(lib, After(lib, ms.accounts[v], ActionsOn(lib, calls, v)), act).0)
  {
    hide AfterCalls, After, ModuleStep, Step;
    AccountProjection(lib, ms, calls, v);
    ActionStep(lib, AfterCalls(lib, ms, calls), vlad, act);
  }

  /** Removing drops that account and no other; clearing drops all and replies how many there were. */
  lemma RemovalDrops(lib: Library, ms: ModuleState, vlad: string, v: Vlad)
    requires lib.decodeVlad(vlad) == Some(v)
    ensures var (reply, ms') := ModuleStep(lib, ms, RemovePlog(vlad));
      && (reply == RemovedReply <==> v in ms.accounts)
      && v !in ms'.accounts
      && forall w :: w != v ==> (w in ms'.accounts <==> w in ms.accounts) &&
                                (w in ms.accounts ==> ms'.accounts[w] == ms.accounts[w])
    ensures var (reply, ms') := ModuleStep(lib, ms, ClearCache);
      && reply == ClearedReply(|ms.accounts|) && ms'.events == ms.events && forall w :: w !in ms'.accounts
  {
  }

  lemma StepStaysGone(lib: Library, ms: ModuleState, call: Call, v: Vlad)
    requires v !in ms.accounts && !BringsIn(lib, call, v)
    ensures v !in ModuleStep(lib, ms, call).1.accounts
  {
    hide Step, Summary, PlogValueAt, Grants;
  }

  /**
    An account that is gone stays gone until it is created or imported: whatever is called in between,
    every call naming it fails with the first 16 hex digits of its hash.
   */
  lemma {:induction false} StaysGone(lib: Library, ms: ModuleState, calls: seq<Call>, v: Vlad, vlad: string, call: Call)
    requires v !in ms.accounts && (forall j :: 0 <= j < |calls| ==> !BringsIn(lib, calls[j], v))
    requires !call.CreateAccount? && !call.ImportPlog? && !call.ClearCache?
    requires call.vlad == vlad && lib.decodeVlad(vlad) == Some(v)
    ensures v !in AfterCalls(lib, ms, calls).accounts
    ensures var (reply, full) := (ModuleStep(lib, AfterCalls(lib, ms, calls), call).0,
                                  EncodeHex(lib.hashVlad(lib.encodeVlad(v))));
      reply == ErrorReply(AccountNotCached(if |full| <= 16 then full else full[..16]))
  {
    if calls != [] {
      StaysGone(lib, ms, Init(calls), v, vlad, call);
      assert calls[|calls| - 1] == Last(calls);
      StepStaysGone(lib, AfterCalls(lib, ms, Init(calls)), Last(calls), v);
    }
    hide OnCached, EncodeHex;
  }

  lemma InsertKeepsInv(lib: Library, ms: ModuleState, log: Log)
    requires ModuleInv(lib, ms)
    ensures ModuleInv(lib, Inserted(lib, ms, log).1)
  {
  }

  lemma ActionKeepsInv(lib: Library, ms: ModuleState, v: Vlad, call: Call)
    requires LipmaaLaw(lib) && ModuleInv(lib, ms) && v in ms.accounts && call.OnAccount?
    ensures ModuleInv(lib, OnCached(lib, ms, v, call).1)
  {
    StepKeepsInv(lib, ms.accounts[v], call.act);
    StepKeepsVlad(lib, ms.accounts[v], call.act);
  }

  lemma ModuleStepKeepsInv(lib: Library, ms: ModuleState, call: Call)
    requires LipmaaLaw(lib) && ModuleInv(lib, ms)
    ensures ModuleInv(lib, ModuleStep(lib, ms, call).1)
  {
    hide AccountInv, Summary, PlogValueAt, Grants, Step;
    match call
    case CreateAccount(_, initial) =>
      if initial.Success? {
        var created := AccountCreated(lib.encodeVlad(initial.value.vlad));
        InsertKeepsInv(lib, ms.(events := ms.events + [created]), initial.value);
      }
    case ImportPlog(plog) =>
      if lib.decodePlog(plog).Some? {
        InsertKeepsInv(lib, ms, lib.decodePlog(plog).value);
      }
    case OnAccount(vlad, _) =>
      if Lookup(lib, ms.accounts, vlad).Success? {
        ActionKeepsInv(lib, ms, Lookup(lib, ms.accounts, vlad).value, call);
      }
    case _ =>
  }

  /** From an empty cache every cached account is verified, sound, and filed under its own VLAD. */
  lemma {:induction false} ReachableModule(lib: Library, ms: ModuleState, calls: seq<Call>)
    requires LipmaaLaw(lib) && ModuleInv(lib, ms)
    ensures ModuleInv(lib, AfterCalls(lib, ms, calls))
  {
    if calls != [] {
      ReachableModule(lib, ms, Init(calls));
      ModuleStepKeepsInv(lib, AfterCalls(lib, ms, Init(calls)), Last(calls));
    }
  }

  // ----- account_updated -----

  /** The events a call adds to the trace. */
  function NewEvents(lib: Library, ms: ModuleState, call: Call): seq<Event> {
    match call
    case CreateAccount(pubkey, initial) =>
      if lib.decodeMultikey(pubkey).None? then [ErrorEvent(Encoding)]
      else if initial.Failure? then [ErrorEvent(initial.error)]
      else if !Verified(lib, initial.value) then [ErrorEvent(PlogVerifyFailed)]
      else (var vlad := lib.encodeVlad(initial.value.vlad);
            [AccountCreated(vlad)] + if lib.decodeVlad(vlad).None? then [ErrorEvent(Encoding)] else [])
    case OnAccount(vlad, act) =>
      (match Lookup(lib, ms.accounts, vlad)
       case Failure(e) => [ErrorEvent(e)]
       case Success(v) => OutcomeEvents(Step(lib, ms.accounts[v], act).0))
    case _ => match ModuleStep(lib, ms, call).0 case ErrorReply(e) => [ErrorEvent(e)] case _ => []
  }

  lemma EventsAppended(lib: Library, ms: ModuleState, call: Call)
    ensures ModuleStep(lib, ms, call).1.events == ms.events + NewEvents(lib, ms, call)
  {
  }

  function UpdatedHeads(events: seq<Event>): seq<string> {
    if events == [] then []
    else UpdatedHeads(Init(events)) + match Last(events) case AccountUpdated(h) => [h] case _ => []
  }

  /** An action that appends announces exactly one update, with the new head; any other announces none. */
  lemma OutcomeUpdates(lib: Library, st: AccountState, act: Action)
    requires AccountInv(lib, st)
    ensures var (o, st') := Step(lib, st, act);
      UpdatedHeads(OutcomeEvents(o)) == if o.Appended? then [lib.encodeCid(Head(lib, st'.log))] else []
  {
    hide AfterCommit, CommitEvents, AccountInv, Authorised;
    var (o, st') := Step(lib, st, act);
    match o
    case Appended(c) =>
      CommitOutcome(lib, st, act.id, act.signature, act.now);
      CommitHeads(c);
    case Rejected(e) => assert Init([ErrorEvent(e)]) == [];
    case _ =>
  }

  lemma CommitHeads(c: Committed)
    ensures UpdatedHeads(CommitEvents(c)) == [c.summary.headCid]
  {
    var first := [AccountUpdated(c.summary.headCid)];
    assert Init(first) == [];
    assert UpdatedHeads(first) == [] + [c.summary.headCid];
    if CommitEvents(c) != first {
      assert Init(CommitEvents(c)) == first;
    }
  }

  /**
    `account_updated` agrees with the logs: in any call an account that is not replaced grows by as
    many entries as updates are announced if the call acts on it, and not at all otherwise; there is
    at most one update, it carries the new head, and only calls acting on a cached account emit one.
   */
  lemma UpdatesMatchAppends(lib: Library, ms: ModuleState, call: Call, v: Vlad)
    requires ModuleInv(lib, ms) && v in ms.accounts && !Replaces(lib, call, v)
    ensures var ms', heads := ModuleStep(lib, ms, call).1, UpdatedHeads(NewEvents(lib, ms, call));
      && v in ms'.accounts && |heads| <= 1
      && |ms'.accounts[v].log.entries| ==
           |ms.accounts[v].log.entries| + (if ActsOn(lib, call, v) then |heads| else 0)
      && (heads != [] && ActsOn(lib, call, v) ==> heads == [lib.encodeCid(Head(lib, ms'.accounts[v].log))])
      && (heads != [] ==> exists w :: w in ms.accounts && ActsOn(lib, call, w))
  {
    AccountFrame(lib, ms, call, v);
    if call.OnAccount? && Lookup(lib, ms.accounts, call.vlad).Success? {
      var w := Lookup(lib, ms.accounts, call.vlad).value;
      assert ActsOn(lib, call, w);
      OutcomeUpdates(lib, ms.accounts[w], call.act);
      StepGrowth(lib, ms.accounts[w], call.act);
    } else {
      NoUpdates(NewEvents(lib, ms, call));
    }
  }

  lemma NoUpdates(events: seq<Event>)
    requires |events| <= 2 && forall i :: 0 <= i < |events| ==> !events[i].AccountUpdated?
    ensures UpdatedHeads(events) == []
  {
  }

  // ----- path_delegated and path_revoked -----

  /** The set of paths replayed from the events naming one VLAD. */
  function Replay(paths: set<string>, events: seq<Event>, vlad: string): set<string> {
    if events == [] then paths else ReplayEvent(Replay(paths, Init(events), vlad), Last(events), vlad)
  }

  function ReplayEvent(paths: set<string>, e: Event, vlad: string): set<string> {
    match e
    case PathDelegated(v, p) => if v == vlad then paths + {p} else paths
    case PathRevoked(v, p) => if v == vlad then paths - {p} else paths
    case _ => paths
  }

  lemma {:induction false} ReplayAppend(paths: set<string>, a: seq<Event>, b: seq<Event>, vlad: string)
    ensures Replay(paths, a + b, vlad) == Replay(Replay(paths, a, vlad), b, vlad)
  {
    if b == [] {
      assert a + b == a;
    } else {
      ReplayAppend(paths, a, Init(b), vlad);
      assert Init(a + b) == a + Init(b) && Last(a + b) == Last(b);
    }
  }

  lemma {:induction false} ReplayIgnores(paths: set<string>, events: seq<Event>, vlad: string)
    requires forall i :: 0 <= i < |events| ==>
      (events[i].PathDelegated? || events[i].PathRevoked?) ==> events[i].vlad != vlad
    ensures Replay(paths, events, vlad) == paths
  {
    if events != [] {
      ReplayIgnores(paths, Init(events), vlad);
      assert Last(events) == events[|events| - 1];
    }
  }

  lemma CommitReplay(paths: set<string>, c: Committed, vlad: string)
    ensures Replay(paths, CommitEvents(c), vlad) ==
      if c.path.None? || c.summary.vlad != vlad then paths
      else match c.kind
        case DelegateKind => paths + {c.path.value}
        case RevokeKind => paths - {c.path.value}
        case EntryKind => paths
  {
    var first := [AccountUpdated(c.summary.headCid)];
    assert Init(first) == [];
    assert Replay(paths, first, vlad) == paths;
    if CommitEvents(c) != first {
      assert Init(CommitEvents(c)) == first;
    }
  }

  lemma EncodeVladInjective(lib: Library, v: Vlad, w: Vlad)
    requires HashLaw(lib)
    ensures lib.encodeVlad(v) == lib.encodeVlad(w) ==> v == w
  {
    NoCollision(lib, v, w);
  }

  /** An action's events replay to the paths of the grant book after it. */
  lemma ActionReplay(lib: Library, st: AccountState, b: Book, act: Action)
    requires Refines(lib, st, b)
    ensures var o := Step(lib, st, act).0;
      Replay(b.grants.Keys, OutcomeEvents(o), lib.encodeVlad(st.log.vlad)) == BookStep(lib, b, act, o).grants.Keys
  {
    hide AfterCommit, Represents, LocksGranted, Grants, IsGrantEntry, IsRevokeEntry, AccountInv, Authorised;
    var o := Step(lib, st, act).0;
    var vlad := lib.encodeVlad(st.log.vlad);
    match o
    case Appended(c) =>
      CommitOutcome(lib, st, act.id, act.signature, act.now);
      CommitReplay(b.grants.Keys, c, vlad);
    case Rejected(e) => ReplayIgnores(b.grants.Keys, [ErrorEvent(e)], vlad);
    case _ =>
  }

  /** The events of a call that does not act on `v` name no path of `v`. */
  lemma ForeignEvents(lib: Library, ms: ModuleState, call: Call, v: Vlad, paths: set<string>)
    requires HashLaw(lib) && ModuleInv(lib, ms) && !ActsOn(lib, call, v)
    ensures Replay(paths, NewEvents(lib, ms, call), lib.encodeVlad(v)) == paths
  {
    hide AfterCommit, Summary, PlogValueAt, Grants, Verified, HashLaw;
    var vlad := lib.encodeVlad(v);
    if call.OnAccount? && Lookup(lib, ms.accounts, call.vlad).Success? {
      var w := Lookup(lib, ms.accounts, call.vlad).value;
      EncodeVladInjective(lib, v, w);
      StepKeepsVlad(lib, ms.accounts[w], call.act);
      match Step(lib, ms.accounts[w], call.act).0
      case Appended(c) =>
        CommitOutcome(lib, ms.accounts[w], call.act.id, call.act.signature, call.act.now);
        CommitReplay(paths, c, vlad);
      case Rejected(e) => ReplayIgnores(paths, [ErrorEvent(e)], vlad);
      case _ =>
    } else {
      ReplayIgnores(paths, NewEvents(lib, ms, call), vlad);
    }
  }

  /** Raw commits on the account of `v` stay within the limits of the delegation refinement. */
  predicate TameCalls(lib: Library, ms: ModuleState, calls: seq<Call>, v: Vlad) {
    forall j :: 0 <= j < |calls| ==>
      var before := AfterCalls(lib, ms, calls[..j]);
      && !Replaces(lib, calls[j], v)
      && (v in before.accounts && ActsOn(lib, calls[j], v) ==> TameStep(lib, before.accounts[v], calls[j].act))
  }

  lemma CallReplay(lib: Library, ms: ModuleState, b: Book, call: Call, v: Vlad) returns (b': Book)
    requires LipmaaLaw(lib) && MultikeyLaw(lib) && HashLaw(lib) && ModuleInv(lib, ms)
    requires v in ms.accounts && Refines(lib, ms.accounts[v], b) && !Replaces(lib, call, v)
    requires ActsOn(lib, call, v) ==> TameStep(lib, ms.accounts[v], call.act)
    ensures v in ModuleStep(lib, ms, call).1.accounts
    ensures Refines(lib, ModuleStep(lib, ms, call).1.accounts[v], b')
    ensures b'.grants.Keys == Replay(b.grants.Keys, NewEvents(lib, ms, call), lib.encodeVlad(v))
  {
    AccountFrame(lib, ms, call, v);
    if ActsOn(lib, call, v) {
      var st := ms.accounts[v];
      b' := BookStep(lib, b, call.act, Step(lib, st, call.act).0);
      ActionReplay(lib, st, b, call.act);
      if call.act.Commit? {
        CommitRefines(lib, st, b, call.act);
      } else {
        PrepareRefines(lib, st, b, call.act);
      }
    } else {
      b' := b;
      ForeignEvents(lib, ms, call, v, b.grants.Keys);
    }
  }

  lemma {:induction false} TraceRefines(lib: Library, ms: ModuleState, calls: seq<Call>, v: Vlad) returns (b: Book)
    requires LipmaaLaw(lib) && MultikeyLaw(lib) && HashLaw(lib) && ModuleInv(lib, ms)
    requires v in ms.accounts && FreshAccount(lib, ms.accounts[v]) && TameCalls(lib, ms, calls, v)
    ensures var ms' := AfterCalls(lib, ms, calls);
      && ms.events <= ms'.events
      && v in ms'.accounts && Refines(lib, ms'.accounts[v], b)
      && b.grants.Keys == Replay({}, ms'.events[|ms.events|..], lib.encodeVlad(v))
  {
    if calls == [] {
      b := EMPTY_BOOK;
      FreshRefines(lib, ms.accounts[v]);
    } else {
      TamePrefix(lib, ms, calls, v);
      var before := TraceRefines(lib, ms, Init(calls), v);
      var mid, call := AfterCalls(lib, ms, Init(calls)), Last(calls);
      ReachableModule(lib, ms, Init(calls));
      b := CallReplay(lib, mid, before, call, v);
      TraceExtends(lib, ms, mid, call, lib.encodeVlad(v));
    }
  }

  lemma TraceExtends(lib: Library, ms: ModuleState, mid: ModuleState, call: Call, vlad: string)
    requires ms.events <= mid.events
    ensures var ms', n := ModuleStep(lib, mid, call).1, |ms.events|;
      && ms.events <= ms'.events
      && Replay({}, ms'.events[n..], vlad) == Replay(Replay({}, mid.events[n..], vlad), NewEvents(lib, mid, call), vlad)
  {
    var n, added := |ms.events|, NewEvents(lib, mid, call);
    EventsAppended(lib, mid, call);
    assert (mid.events + added)[n..] == mid.events[n..] + added;
    ReplayAppend({}, mid.events[n..], added, vlad);
  }

  lemma TamePrefix(lib: Library, ms: ModuleState, calls: seq<Call>, v: Vlad)
    requires calls != [] && TameCalls(lib, ms, calls, v)
    ensures TameCalls(lib, ms, Init(calls), v)
    ensures !Replaces(lib, Last(calls), v)
    ensures var before := AfterCalls(lib, ms, Init(calls));
      v in before.accounts && ActsOn(lib, Last(calls), v) ==> TameStep(lib, before.accounts[v], Last(calls).act)
  {
    hide AfterCalls, ModuleStep, TameStep, Replaces, ActsOn;
    forall j | 0 <= j < |calls| - 1 ensures Init(calls)[..j] == calls[..j] && Init(calls)[j] == calls[j] {
    }
    var j := |calls| - 1;
    assert calls[j] == Last(calls) && calls[..j] == Init(calls);
    assert !Replaces(lib, calls[j], v);
  }

  /**
    The event trace agrees with the listing. For an account that is created fresh and then neither
    replaced nor dropped, with raw commits within the limits of the delegation refinement and any
    calls on other accounts in between, replaying its path events gives exactly the paths listed.
   */
  lemma PathEventsAgree(lib: Library, ms: ModuleState, calls: seq<Call>, v: Vlad)
    requires LipmaaLaw(lib) && MultikeyLaw(lib) && HashLaw(lib) && ModuleInv(lib, ms)
    requires v in ms.accounts && FreshAccount(lib, ms.accounts[v]) && TameCalls(lib, ms, calls, v)
    ensures var ms' := AfterCalls(lib, ms, calls);
      && ms.events <= ms'.events && v in ms'.accounts
      && Paths(Grants(lib, ms'.accounts[v].log)) == Replay({}, ms'.events[|ms.events|..], lib.encodeVlad(v))
  {
    var b := TraceRefines(lib, ms, calls, v);
    var s := Grants(lib, AfterCalls(lib, ms, calls).accounts[v].log);
    forall p | p in b.grants ensures p in Paths(s) {
      assert PathDelegation(p, lib.encodeMultikey(b.grants[p])) in s;
    }
  }
}
