/**
  One cached account: a verified provenance log plus the challenges handed out by prepare and
  awaiting an external signature. The transition functions on `AccountState` say what every
  operation returns and leaves behind; the methods of `PlogAccount` update the fields in place and
  are proved against them. Times are nanoseconds; ids and clock readings are inputs.
 */
module Account {
  import opened Wrappers
  import opened Errors
  import opened Sequences
  import opened Keys
  import opened Sorting
  import opened Plog
  import opened EntryUpdate
  import opened Delegations

  // ----- data -----

  datatype PlogPathValue = StrValue(s: string) | BinValue(multibase: string)

  datatype AccountSummary = AccountSummary(vlad: string, headCid: string, pubkey: Option<string>)

  datatype PlogValue = StrPayload(s: string) | DataPayload(multibase: string)

  datatype PlogOp = NoopAt(key: string) | DeleteAt(key: string) | UpdateAt(key: string, value: PlogValue)

  datatype LockScript = LockScript(path: string, code: string)

  datatype LockSpec =
    | Keyword(word: string)
    | Replace(replace: seq<LockScript>)
    | Upsert(upsert: LockScript)
    | Remove(remove: string)

  datatype EntryUpdateRequest = EntryUpdateRequest(locks: LockSpec, ops: seq<PlogOp>, signAs: Option<string>)

  datatype UpdateKind = EntryKind | DelegateKind | RevokeKind

  datatype PrepareSpec = PrepareSpec(
    locks: LockSpec, ops: seq<OpParams>, signAs: string, kind: UpdateKind, path: Option<string>)

  datatype PendingUpdate = PendingUpdate(
    headCid: string, unsigned: UnsignedUpdate, kind: UpdateKind, path: Option<string>, createdAt: nat)

  datatype UpdateChallenge = UpdateChallenge(
    challengeId: string, vlad: string, kind: UpdateKind, path: Option<string>, signingKeyPath: string,
    headCid: string, message: string)

  datatype Committed = Committed(summary: AccountSummary, kind: UpdateKind, path: Option<string>)

  datatype AccountState = AccountState(log: Log, pending: map<string, PendingUpdate>)

  /** 15 minutes. */
  const CHALLENGE_TTL: nat := 15 * 60 * 1_000_000_000

  // ----- reading -----

  function RenderValue(lib: Library, v: Value): PlogPathValue {
    match v
    case Str(s) => StrValue(s)
    case Data(b) =>
      (match lib.multikeyFromBytes(b)
       case Some(mk) => BinValue(lib.encodeMultikey(mk))
       case None => BinValue(lib.encodeBytes(b)))
    case Nil => BinValue(lib.encodeBytes([]))
  }

  function PlogValueAt(lib: Library, log: Log, path: string): Result<PlogPathValue, Error> {
    if !IsKey(path) then Failure(InvalidOp)
    else if !Verified(lib, log) then Failure(PlogVerifyFailed)
    else if path in KvpOf(log.entries) then Success(RenderValue(lib, KvpOf(log.entries)[path]))
    else Failure(PathNotFound(path))
  }

  method EnsurePlogVerified(lib: Library, log: Log) returns (r: Result<(), Error>)
    ensures r == if Verified(lib, log) then Success(()) else Failure(PlogVerifyFailed)
  {
    LastItemDecides(lib, log);
    var items := VerifyItems(lib, log);
    var any := false;
    for i := 0 to |items|
      invariant any <==> i > 0
      invariant forall j :: 0 <= j < i ==> items[j].Success?
    {
      any := true;
      if items[i].Failure? {
        return Failure(PlogVerifyFailed);
      }
    }
    if !any {
      return Failure(PlogVerifyFailed);
    }
    r := Success(());
  }

  method GetPlogValue(lib: Library, log: Log, path: string) returns (r: Result<PlogPathValue, Error>)
    ensures r == PlogValueAt(lib, log, path)
  {
    LastItemDecides(lib, log);
    var key :- ParseKey(path);
    var items := VerifyItems(lib, log);
    var last: Option<Kvp> := None;
    for i := 0 to |items|
      invariant forall j :: 0 <= j < i ==> items[j].Success?
      invariant i > 0 ==> last.Some? && items[i - 1].Success? && items[i - 1].value.kvp == last.value
    {
      if items[i].Failure? {
        return Failure(PlogVerifyFailed);
      }
      last := Some(items[i].value.kvp);
    }
    if items == [] {
      return Failure(PlogVerifyFailed);
    }
    var kvp := last.value;
    if key in kvp {
      r := Success(RenderValue(lib, kvp[key]));
    } else {
      r := Failure(PathNotFound(path));
    }
  }

  function Summary(lib: Library, log: Log): Result<AccountSummary, Error> {
    if !Verified(lib, log) then Failure(PlogVerifyFailed)
    else
      var pubkey :-
        match PlogValueAt(lib, log, "/pubkey")
        case Success(BinValue(s)) => Success(Some(s))
        case Success(StrValue(s)) => Success(Some(s))
        case Failure(PathNotFound(_)) => Success(None)
        case Failure(e) => Failure(e);
      Success(AccountSummary(lib.encodeVlad(log.vlad), lib.encodeCid(Head(lib, log)), pubkey))
  }

  method SummaryFromVerifiedPlog(lib: Library, log: Log) returns (r: Result<AccountSummary, Error>)
    ensures r == Summary(lib, log)
  {
    var _ :- EnsurePlogVerified(lib, log);
    var value := GetPlogValue(lib, log, "/pubkey");
    var pubkey: Option<string>;
    match value {
      case Success(BinValue(s)) => pubkey := Some(s);
      case Success(StrValue(s)) => pubkey := Some(s);
      case Failure(e) =>
        if !e.PathNotFound? {
          return Failure(e);
        }
        pubkey := None;
    }
    r := Success(AccountSummary(lib.encodeVlad(log.vlad), lib.encodeCid(Head(lib, log)), pubkey));
  }

  // ----- request conversion -----

  function IntoOpParams(lib: Library, op: PlogOp): Result<OpParams, Error> {
    match op
    case NoopAt(k) => var key :- ParseKey(k); Success(OpParams.Noop(key))
    case DeleteAt(k) => var key :- ParseKey(k); Success(OpParams.Delete(key))
    case UpdateAt(k, v) =>
      var key :- ParseKey(k);
      (match v
       case StrPayload(s) => Success(UseStr(key, s))
       case DataPayload(m) =>
         match lib.decodeBytes(m)
         case None => Failure(Encoding)
         case Some(b) => Success(UseBin(key, b)))
  }

  function PlogOpsToParams(lib: Library, ops: seq<PlogOp>): (r: Result<seq<OpParams>, Error>)
    ensures r.Success? <==> forall i :: 0 <= i < |ops| ==> IntoOpParams(lib, ops[i]).Success?
    ensures r.Success? ==> |r.value| == |ops| && forall i :: 0 <= i < |ops| ==>
      IntoOpParams(lib, ops[i]) == Success(r.value[i])
    ensures r.Success? ==> Resolved(r.value)
  {
    if ops == [] then Success([])
    else
      assert ops == Init(ops) + [Last(ops)];
      var before :- PlogOpsToParams(lib, Init(ops));
      var op :- IntoOpParams(lib, Last(ops));
      Success(before + [op])
  }

  predicate FirstFailure(lib: Library, ops: seq<PlogOp>, i: nat, e: Error)
    requires i < |ops|
  {
    IntoOpParams(lib, ops[i]) == Failure(e) && forall j :: 0 <= j < i ==> IntoOpParams(lib, ops[j]).Success?
  }

  /** The first op that cannot be converted decides the error. */
  lemma {:induction false} OpsFailure(lib: Library, ops: seq<PlogOp>) returns (i: nat)
    requires PlogOpsToParams(lib, ops).Failure?
    ensures i < |ops| && FirstFailure(lib, ops, i, PlogOpsToParams(lib, ops).error)
  {
    hide IntoOpParams;
    assert ops == Init(ops) + [Last(ops)];
    if PlogOpsToParams(lib, Init(ops)).Failure? {
      i := OpsFailure(lib, Init(ops));
    } else {
      i := |ops| - 1;
    }
  }

  function LockScriptFromJson(s: LockScript): Result<Script, Error> {
    var path :- ParseKey(s.path);
    Success(Code(path, s.code))
  }

  function LockScriptsFromJson(scripts: seq<LockScript>): (r: Result<seq<Script>, Error>)
    ensures r.Success? <==> forall i :: 0 <= i < |scripts| ==> IsKey(scripts[i].path)
    ensures r.Failure? ==> r.error == InvalidOp
  {
    if scripts == [] then Success([])
    else
      assert scripts == Init(scripts) + [Last(scripts)];
      var before :- LockScriptsFromJson(Init(scripts));
      var script :- LockScriptFromJson(Last(scripts));
      Success(before + [script])
  }

  /** The next entry's lock set; `None` inherits the head's. */
  function LockSpecToScripts(head: Entry, spec: LockSpec): Result<Option<seq<Script>>, Error> {
    match spec
    case Keyword(word) => if word == "inherit" then Success(None) else Failure(InvalidOp)
    case Replace(scripts) => var locks :- LockScriptsFromJson(scripts); Success(Some(locks))
    case Upsert(upsert) =>
      var path :- ParseKey(upsert.path);
      var script :- LockScriptFromJson(upsert);
      Success(Some(ReplacePath(head.locks, path, Some(script))))
    case Remove(remove) =>
      var path :- ParseKey(remove);
      Success(Some(ReplacePath(head.locks, path, None)))
  }

  /** Whether a lock spec can be applied depends on the request alone. */
  predicate LocksConvert(spec: LockSpec) {
    match spec
    case Keyword(word) => word == "inherit"
    case Replace(scripts) => forall i :: 0 <= i < |scripts| ==> IsKey(scripts[i].path)
    case Upsert(upsert) => IsKey(upsert.path)
    case Remove(remove) => IsKey(remove)
  }

  method ConvertLockSpec(head: Entry, spec: LockSpec) returns (r: Result<Option<seq<Script>>, Error>)
    ensures r == LockSpecToScripts(head, spec)
  {
    match spec
    case Keyword(word) => r := if word == "inherit" then Success(None) else Failure(InvalidOp);
    case Replace(scripts) =>
      var locks :- LockScriptsFromJson(scripts);
      r := Success(Some(locks));
    case Upsert(upsert) =>
      var path :- ParseKey(upsert.path);
      var script := LockScriptFromJson(upsert).value;  // its path has just been parsed
      var locks := LocksReplacingPath(head, path, Some(script));
      r := Success(Some(locks));
    case Remove(remove) =>
      var path :- ParseKey(remove);
      var locks := LocksReplacingPath(head, path, None);
      r := Success(Some(locks));
  }

  // ----- transitions -----

  function Age(now: nat, since: nat): nat {
    if now >= since then now - since else 0
  }

  function Purge(pending: map<string, PendingUpdate>, now: nat): map<string, PendingUpdate> {
    map id | id in pending && Age(now, pending[id].createdAt) < CHALLENGE_TTL :: pending[id]
  }

  /** The entry a prepare hands out for signing. */
  function Prepared(lib: Library, log: Log, spec: PrepareSpec): Result<UnsignedUpdate, Error> {
    if log.entries == [] then Failure(PlogVerifyFailed)
    else if !Verified(lib, log) then Failure(Error.Plog)
    else
      var locks :- LockSpecToScripts(Last(log.entries), spec.locks);
      NextEntry(lib, log, NextEntrySpec(DEFAULT_UNLOCK, locks, spec.ops))
  }

  function AfterPrepare(lib: Library, st: AccountState, spec: PrepareSpec, id: string, now: nat, createdAt: nat)
    : (Result<UpdateChallenge, Error>, AccountState)
  {
    var purged := st.(pending := Purge(st.pending, now));
    match Prepared(lib, st.log, spec)
    case Failure(e) => (Failure(e), purged)
    case Success(unsigned) =>
      var head := lib.encodeCid(Head(lib, st.log));
      (Success(UpdateChallenge(id, lib.encodeVlad(st.log.vlad), spec.kind, spec.path, spec.signAs, head,
                               lib.encodeBytes(unsigned.message))),
       purged.(pending := purged.pending[id := PendingUpdate(head, unsigned, spec.kind, spec.path, createdAt)]))
  }

  /** The entry a prepare presents to be made signable. */
  function EntryToSign(lib: Library, log: Log, spec: PrepareSpec): Entry
    requires log.entries != [] && LocksConvert(spec.locks) && Resolved(spec.ops)
  {
    var head := Last(log.entries);
    Assembled(lib, head, NextEntrySpec(DEFAULT_UNLOCK, LockSpecToScripts(head, spec.locks).value, spec.ops),
              OpsFromParams(lib, spec.ops).value, LipmaaLink(lib, log, |log.entries|))
  }

  /** On a reachable state a prepare succeeds iff its lock spec converts and the entry can be signed. */
  lemma PrepareOutcome(lib: Library, st: AccountState, spec: PrepareSpec, id: string, now: nat, createdAt: nat)
    requires LipmaaLaw(lib) && Verified(lib, st.log) && Resolved(spec.ops)
    ensures var r := AfterPrepare(lib, st, spec, id, now, createdAt).0;
      && (r.Success? <==> LocksConvert(spec.locks) && lib.signable(EntryToSign(lib, st.log, spec)))
      && (r.Failure? ==> r.error == if LocksConvert(spec.locks) then Error.Plog else InvalidOp)
  {
    var locks := LockSpecToScripts(Last(st.log.entries), spec.locks);
    hide Verified, LongHop, Linked, KvpOf, LipmaaLink, LockScriptsFromJson, OpsFromParams;
    if locks.Success? {
      PrepareFailsOnlyFor(lib, st.log, NextEntrySpec(DEFAULT_UNLOCK, locks.value, spec.ops));
    }
  }

  function UpdateSpec(lib: Library, req: EntryUpdateRequest): Result<PrepareSpec, Error> {
    var signAs :- ParseKey(if req.signAs.Some? then req.signAs.value else PUBKEY);
    var ops :- PlogOpsToParams(lib, req.ops);
    Success(PrepareSpec(req.locks, ops, signAs, EntryKind, None))
  }

  function DelegateSpec(lib: Library, log: Log, path: string, pubkey: string): Result<PrepareSpec, Error> {
    var branch :- ParseBranchPath(path);
    match lib.decodeMultikey(pubkey)
    case None => Failure(Encoding)
    case Some(mk) =>
      if !Verified(lib, log) then Failure(PlogVerifyFailed)
      else Success(PrepareSpec(
        Upsert(LockScript(branch, DelegatedLockCode(branch))), [UseKey(branch + "pubkey", mk)],
        SigningKey(Grants(lib, log), branch), DelegateKind, Some(branch)))
  }

  function RevokeSpec(lib: Library, log: Log, path: string): Result<PrepareSpec, Error> {
    var branch :- ParseBranchPath(path);
    if !Verified(lib, log) then Failure(PlogVerifyFailed)
    else Success(PrepareSpec(
      Remove(branch), [OpParams.Delete(branch + "pubkey")],
      SigningKey(Grants(lib, log), branch), RevokeKind, Some(branch)))
  }

  function AfterCommit(lib: Library, st: AccountState, id: string, signature: string, now: nat)
    : (Result<Committed, Error>, AccountState)
  {
    var live := Purge(st.pending, now);
    if id !in live then (Failure(ChallengeNotFound(id)), st.(pending := live))
    else
      var p, rest := live[id], st.(pending := live - {id});
      var current := lib.encodeCid(Head(lib, st.log));
      if current != p.headCid then (Failure(HeadMismatch(p.headCid, current)), rest)
      else match lib.decodeMultisig(signature)
        case None => (Failure(Encoding), rest)
        case Some(proof) =>
          match CommitWithMultisig(lib, st.log, p.unsigned.entry, proof)
          case Failure(e) => (Failure(e), rest)
          case Success(log') =>
            var st' := AccountState(log', map[]);
            match Summary(lib, log')
            case Failure(e) => (Failure(e), st')
            case Success(summary) => (Success(Committed(summary, p.kind, p.path)), st')
  }

  function AfterCancel(st: AccountState, id: string, now: nat): (Result<(), Error>, AccountState) {
    var live := Purge(st.pending, now);
    if id in live then (Success(()), st.(pending := live - {id}))
    else (Failure(ChallengeNotFound(id)), st.(pending := live))
  }

  // ----- invariant -----

  /** A challenge is built on the current head: only the proof is missing. */
  predicate BuiltOnHead(lib: Library, log: Log, p: PendingUpdate) {
    && p.headCid == lib.encodeCid(Head(lib, log))
    && p.unsigned.entry.proof == []
    && p.unsigned.message == lib.entryBytes(p.unsigned.entry)
    && Linked(lib, log, p.unsigned.entry)
  }

  predicate AccountInv(lib: Library, st: AccountState) {
    && Verified(lib, st.log)
    && forall id :: id in st.pending ==> BuiltOnHead(lib, st.log, st.pending[id])
  }

  lemma PrepareKeepsInv(lib: Library, st: AccountState, spec: PrepareSpec, id: string, now: nat, createdAt: nat)
    requires LipmaaLaw(lib) && AccountInv(lib, st)
    ensures AccountInv(lib, AfterPrepare(lib, st, spec, id, now, createdAt).1)
  {
  }

  lemma CommitKeepsInv(lib: Library, st: AccountState, id: string, signature: string, now: nat)
    requires AccountInv(lib, st)
    ensures AccountInv(lib, AfterCommit(lib, st, id, signature, now).1)
  {
    var live := Purge(st.pending, now);
    if id in live && lib.decodeMultisig(signature).Some? {
      var e := live[id].unsigned.entry.(proof := lib.decodeMultisig(signature).value);
      if TryAppend(lib, st.log, e).Success? {
        AppendVerifies(lib, st.log, e);
      }
    }
  }

  lemma CancelKeepsInv(lib: Library, st: AccountState, id: string, now: nat)
    requires AccountInv(lib, st)
    ensures AccountInv(lib, AfterCancel(st, id, now).1)
  {
  }

  /** A verified log always has a summary. */
  lemma SummarySucceeds(lib: Library, log: Log)
    requires Verified(lib, log)
    ensures Summary(lib, log).Success?
    ensures Summary(lib, log).value.headCid == lib.encodeCid(lib.cid(Last(log.entries)))
    ensures Summary(lib, log).value.vlad == lib.encodeVlad(log.vlad)
    ensures Summary(lib, log).value.pubkey ==
      match PlogValueAt(lib, log, "/pubkey")
      case Success(StrValue(s)) => Some(s)
      case Success(BinValue(s)) => Some(s)
      case Failure(_) => None
  {
  }

  /** The live challenge, completed with the decoded signature. */
  function Completed(lib: Library, st: AccountState, id: string, signature: string): Entry
    requires id in st.pending && lib.decodeMultisig(signature).Some?
  {
    st.pending[id].unsigned.entry.(proof := lib.decodeMultisig(signature).value)
  }

  /**
    Every outcome of a commit on a reachable state. Success needs a live challenge, a decodable
    signature that completes the entry, and authorisation by the head's locks: nothing structural.
    `HeadMismatch` and `PlogVerifyFailed` do not occur, and an error never leaves an entry behind.
   */
  lemma CommitOutcome(lib: Library, st: AccountState, id: string, signature: string, now: nat)
    requires AccountInv(lib, st)
    ensures var (r, st') := AfterCommit(lib, st, id, signature, now);
      var live := id in st.pending && Age(now, st.pending[id].createdAt) < CHALLENGE_TTL;
      var decoded := lib.decodeMultisig(signature).Some?;
      && (r.Success? <==>
            && live && decoded
            && lib.buildable(Completed(lib, st, id, signature))
            && Authorised(lib, st.log, Completed(lib, st, id, signature)))
      && (r.Success? ==>
            && st' == AccountState(st.log.(entries := st.log.entries + [Completed(lib, st, id, signature)]), map[])
            && Summary(lib, st'.log) == Success(r.value.summary)
            && r.value.summary.vlad == lib.encodeVlad(st.log.vlad)
            && r.value.summary.headCid == lib.encodeCid(lib.cid(Completed(lib, st, id, signature)))
            && r.value.kind == st.pending[id].kind && r.value.path == st.pending[id].path)
      && (r.Failure? ==> st' == AccountState(st.log, Purge(st.pending, now) - {id}))
      && (r.Failure? ==> r.error == if !live then ChallengeNotFound(id)
                                    else if !decoded then Encoding else Error.Plog)
  {
    hide Summary, LongHop, KvpOf;
    if id in Purge(st.pending, now) && lib.decodeMultisig(signature).Some? {
      var e := Completed(lib, st, id, signature);
      if TryAppend(lib, st.log, e).Success? {
        AppendVerifies(lib, st.log, e);
        SummarySucceeds(lib, TryAppend(lib, st.log, e).value);
      }
    } else if id !in Purge(st.pending, now) {
      assert Purge(st.pending, now) - {id} == Purge(st.pending, now);
    }
  }

  // ----- the account object -----

  class PlogAccount {
    const lib: Library
    var log: Log
    var pending: map<string, PendingUpdate>

    function State(): AccountState
      reads this
    {
      AccountState(log, pending)
    }

    ghost predicate Valid()
      reads this
    {
      LipmaaLaw(lib) && AccountInv(lib, State())
    }

    constructor (lib: Library, log: Log)
      ensures this.lib == lib && State() == AccountState(log, map[])
    {
      this.lib := lib;
      this.log := log;
      this.pending := map[];
    }

    /** `initial` is what `open_plog_with_external_pubkey` yields for the decoded key. */
    static method Create(lib: Library, pubkey: string, initial: Result<Log, Error>)
      returns (r: Result<(PlogAccount, AccountSummary), Error>)
      ensures r.Success? <==> lib.decodeMultikey(pubkey).Some? && initial.Success? && Verified(lib, initial.value)
      ensures r.Success? ==> fresh(r.value.0) && r.value.0.lib == lib
      ensures r.Success? ==> r.value.0.State() == AccountState(initial.value, map[])
      ensures r.Success? ==> Summary(lib, initial.value) == Success(r.value.1)
      ensures r.Failure? ==> r.error == if lib.decodeMultikey(pubkey).None? then Encoding
                                        else if initial.Failure? then initial.error else PlogVerifyFailed
    {
      if lib.decodeMultikey(pubkey).None? {
        return Failure(Encoding);
      }
      var log :- initial;
      var summary :- SummaryFromVerifiedPlog(lib, log);
      var account := new PlogAccount(lib, log);
      r := Success((account, summary));
    }

    static method Import(lib: Library, plog: string) returns (r: Result<(PlogAccount, AccountSummary), Error>)
      ensures r.Success? <==> lib.decodePlog(plog).Some? && Verified(lib, lib.decodePlog(plog).value)
      ensures r.Success? ==> fresh(r.value.0) && r.value.0.lib == lib
      ensures r.Success? ==> r.value.0.State() == AccountState(lib.decodePlog(plog).value, map[])
      ensures r.Success? ==> Summary(lib, lib.decodePlog(plog).value) == Success(r.value.1)
      ensures r.Failure? ==> r.error == if lib.decodePlog(plog).None? then Encoding else PlogVerifyFailed
    {
      if lib.decodePlog(plog).None? {
        return Failure(Encoding);
      }
      var log := lib.decodePlog(plog).value;
      var summary :- SummaryFromVerifiedPlog(lib, log);
      var account := new PlogAccount(lib, log);
      r := Success((account, summary));
    }

    method PurgeExpiredChallenges(now: nat)
      modifies this`pending
      ensures pending == Purge(old(pending), now)
    {
      pending := map id | id in pending && Age(now, pending[id].createdAt) < CHALLENGE_TTL :: pending[id];
    }

    /** Reads the last verified item only. */
    method HeadEntry() returns (r: Result<Entry, Error>)
      ensures r == if log.entries == [] then Failure(PlogVerifyFailed)
                   else if Verified(lib, log) then Success(Last(log.entries)) else Failure(Error.Plog)
    {
      LastItemDecides(lib, log);
      var items := VerifyItems(lib, log);
      if items == [] {
        return Failure(PlogVerifyFailed);
      }
      var item :- items[|items| - 1];
      r := Success(item.entry);
    }

    method PrepareEntry(spec: PrepareSpec, id: string, now: nat, createdAt: nat)
      returns (r: Result<UpdateChallenge, Error>)
      modifies this`pending
      ensures (r, State()) == AfterPrepare(lib, old(State()), spec, id, now, createdAt)
      ensures old(Valid()) ==> Valid()
    {
      if Valid() {
        PrepareKeepsInv(lib, State(), spec, id, now, createdAt);
      }
      PurgeExpiredChallenges(now);
      var head :- HeadEntry();
      var locks :- ConvertLockSpec(head, spec.locks);
      var vlad := lib.encodeVlad(log.vlad);
      var headCid := lib.encodeCid(Head(lib, log));
      var unsigned :- PrepareNextEntry(lib, log, NextEntrySpec(DEFAULT_UNLOCK, locks, spec.ops));
      pending := pending[id := PendingUpdate(headCid, unsigned, spec.kind, spec.path, createdAt)];
      r := Success(UpdateChallenge(id, vlad, spec.kind, spec.path, spec.signAs, headCid,
                                   lib.encodeBytes(unsigned.message)));
    }

    method PrepareUpdate(req: EntryUpdateRequest, id: string, now: nat, createdAt: nat)
      returns (r: Result<UpdateChallenge, Error>)
      modifies this`pending
      ensures (r, State()) == AfterPrepareUpdate(lib, old(State()), req, id, now, createdAt)
      ensures old(Valid()) ==> Valid()
    {
      var signAs := if req.signAs.Some? then req.signAs.value else PUBKEY;
      var _ :- ParseKey(signAs);
      var ops :- PlogOpsToParams(lib, req.ops);
      r := PrepareEntry(PrepareSpec(req.locks, ops, signAs, EntryKind, None), id, now, createdAt);
    }

    method PrepareDelegate(path: string, pubkey: string, id: string, now: nat, createdAt: nat)
      returns (r: Result<UpdateChallenge, Error>)
      modifies this`pending
      ensures (r, State()) == AfterPrepareDelegate(lib, old(State()), path, pubkey, id, now, createdAt)
      ensures old(Valid()) ==> Valid()
    {
      var branch :- ParseBranchPath(path);
      if lib.decodeMultikey(pubkey).None? {
        return Failure(Encoding);
      }
      var mk := lib.decodeMultikey(pubkey).value;
      var key := DelegatePubkeyKey(branch).value;  // a parsed branch always has one
      var lock := LockScript(branch, DelegatedLockCode(branch));
      var delegations :- ListDelegations(lib, log);
      var signAs := ResolveClosestParentSigningKey(branch, delegations);
      r := PrepareEntry(PrepareSpec(Upsert(lock), [UseKey(key, mk)], signAs.value, DelegateKind, Some(branch)),
                        id, now, createdAt);
    }

    method PrepareRevoke(path: string, id: string, now: nat, createdAt: nat)
      returns (r: Result<UpdateChallenge, Error>)
      modifies this`pending
      ensures (r, State()) == AfterPrepareRevoke(lib, old(State()), path, id, now, createdAt)
      ensures old(Valid()) ==> Valid()
    {
      var branch :- ParseBranchPath(path);
      var key := DelegatePubkeyKey(branch).value;  // a parsed branch always has one
      var delegations :- ListDelegations(lib, log);
      var signAs := ResolveClosestParentSigningKey(branch, delegations);
      r := PrepareEntry(PrepareSpec(Remove(branch), [OpParams.Delete(key)], signAs.value, RevokeKind, Some(branch)),
                        id, now, createdAt);
    }

    method CommitUpdate(id: string, signature: string, now: nat) returns (r: Result<Committed, Error>)
      modifies this
      ensures (r, State()) == AfterCommit(lib, old(State()), id, signature, now)
      ensures old(Valid()) ==> Valid()
    {
      if Valid() {
        CommitKeepsInv(lib, State(), id, signature, now);
      }
      PurgeExpiredChallenges(now);
      if id !in pending {
        return Failure(ChallengeNotFound(id));
      }
      var p := pending[id];
      pending := pending - {id};
      var current := lib.encodeCid(Head(lib, log));
      if current != p.headCid {
        return Failure(HeadMismatch(p.headCid, current));
      }
      if lib.decodeMultisig(signature).None? {
        return Failure(Encoding);
      }
      var proof := lib.decodeMultisig(signature).value;
      log :- CommitWithMultisig(lib, log, p.unsigned.entry, proof);
      pending := map[];
      var summary :- SummaryFromVerifiedPlog(lib, log);
      r := Success(Committed(summary, p.kind, p.path));
    }

    method CancelUpdate(id: string, now: nat) returns (r: Result<(), Error>)
      modifies this`pending
      ensures (r, State()) == AfterCancel(old(State()), id, now)
      ensures old(Valid()) ==> Valid()
    {
      PurgeExpiredChallenges(now);
      if id !in pending {
        return Failure(ChallengeNotFound(id));
      }
      pending := pending - {id};
      r := Success(());
    }
  }

  // The three prepare surfaces: a rejected request leaves the account untouched, without purging.

  function AfterPrepareUpdate(lib: Library, st: AccountState, req: EntryUpdateRequest,
                              id: string, now: nat, createdAt: nat): (Result<UpdateChallenge, Error>, AccountState)
  {
    match UpdateSpec(lib, req)
    case Failure(e) => (Failure(e), st)
    case Success(spec) => AfterPrepare(lib, st, spec, id, now, createdAt)
  }

  function AfterPrepareDelegate(lib: Library, st: AccountState, path: string, pubkey: string,
                                id: string, now: nat, createdAt: nat): (Result<UpdateChallenge, Error>, AccountState)
  {
    match DelegateSpec(lib, st.log, path, pubkey)
    case Failure(e) => (Failure(e), st)
    case Success(spec) => AfterPrepare(lib, st, spec, id, now, createdAt)
  }

  function AfterPrepareRevoke(lib: Library, st: AccountState, path: string,
                              id: string, now: nat, createdAt: nat): (Result<UpdateChallenge, Error>, AccountState)
  {
    match RevokeSpec(lib, st.log, path)
    case Failure(e) => (Failure(e), st)
    case Success(spec) => AfterPrepare(lib, st, spec, id, now, createdAt)
  }
}
