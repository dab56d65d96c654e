/**
  The delegation machinery against a plain map. Commits of delegate and revoke challenges change the
  listing derived from locks and pairs exactly as a finite map from branch to key would; the sugar
  builds the entries that raw requests build; sugar never touches the root policy.
 */
module Refinement {
  import opened Wrappers
  import opened Errors
  import opened Sequences
  import opened Keys
  import opened Sorting
  import opened Plog
  import opened EntryUpdate
  import opened Delegations
  import opened Account
  import opened Runs

  // ----- what a challenge will do -----

  /** What a caller asked for when it prepared a challenge. */
  datatype Offer = Grant(path: Key, mk: Multikey) | Withdraw(path: Key) | Plain

  predicate IsGrantEntry(lib: Library, log: Log, e: Entry, path: Key, mk: Multikey)
    requires log.entries != []
  {
    && e.locks == ReplacePath(Last(log.entries).locks, path, Some(Code(path, DelegatedLockCode(path))))
    && e.ops == [Op.Update(path + "pubkey", Data(lib.multikeyBytes(mk)))]
  }

  predicate IsRevokeEntry(lib: Library, log: Log, e: Entry, path: Key)
    requires log.entries != []
  {
    && e.locks == ReplacePath(Last(log.entries).locks, path, None)
    && e.ops == [Op.Delete(path + "pubkey")]
  }

  predicate Fulfils(lib: Library, log: Log, p: PendingUpdate, offer: Offer)
    requires log.entries != []
  {
    match offer
    case Grant(path, mk) =>
      p.kind == DelegateKind && p.path == Some(path) && IsDelegable(path) &&
      IsGrantEntry(lib, log, p.unsigned.entry, path, mk)
    case Withdraw(path) =>
      p.kind == RevokeKind && p.path == Some(path) && IsDelegable(path) &&
      IsRevokeEntry(lib, log, p.unsigned.entry, path)
    case Plain => p.kind == EntryKind && p.path == None
  }

  function OfferOf(lib: Library, a: Action): Offer {
    match a
    case PrepareDelegate(path, pubkey, _, _, _) =>
      (match lib.decodeMultikey(pubkey) case Some(mk) => Grant(path, mk) case None => Plain)
    case PrepareRevoke(path, _, _, _) => Withdraw(path)
    case _ => Plain
  }

  lemma SingleOp(lib: Library, p: OpParams)
    ensures OpsFromParams(lib, [p]) ==
      (match OpFromParams(lib, p) case Success(op) => Success([op]) case Failure(e) => Failure(e))
  {
    assert Init([p]) == [];
    assert forall op: Op :: [] + [op] == [op];
  }

  lemma DelegatePrepared(lib: Library, log: Log, path: string, pubkey: string)
    requires DelegateSpec(lib, log, path, pubkey).Success?
    requires Prepared(lib, log, DelegateSpec(lib, log, path, pubkey).value).Success?
    ensures IsGrantEntry(lib, log, Prepared(lib, log, DelegateSpec(lib, log, path, pubkey).value).value.entry,
                         path, lib.decodeMultikey(pubkey).value)
  {
    SingleOp(lib, UseKey(path + "pubkey", lib.decodeMultikey(pubkey).value));
  }

  lemma RevokePrepared(lib: Library, log: Log, path: string)
    requires RevokeSpec(lib, log, path).Success?
    requires Prepared(lib, log, RevokeSpec(lib, log, path).value).Success?
    ensures IsRevokeEntry(lib, log, Prepared(lib, log, RevokeSpec(lib, log, path).value).value.entry, path)
  {
    SingleOp(lib, OpParams.Delete(path + "pubkey"));
  }

  /** The challenge handed out by a prepare does what was asked for. */
  lemma HandedOutFulfils(lib: Library, st: AccountState, a: Action, p: PendingUpdate)
    requires AccountInv(lib, st) && HandsOut(lib, st, a, a.id, p)
    ensures Fulfils(lib, st.log, p, OfferOf(lib, a))
  {
    hide Prepared, BuiltOnHead, Verified, Grants, SigningKey, IsGrantEntry, IsRevokeEntry;
    match a
    case PrepareDelegate(path, pubkey, _, _, _) => DelegatePrepared(lib, st.log, path, pubkey);
    case PrepareRevoke(path, _, _, _) => RevokePrepared(lib, st.log, path);
    case _ =>
  }

  // ----- one-step effect on the listing, for any verified log -----

  lemma SingleOpKvp(entries: seq<Entry>, e: Entry, op: Op)
    requires e.ops == [op]
    ensures KvpOf(entries + [e]) == ApplyOp(KvpOf(entries), op)
  {
    SnocParts(entries, e);
    assert Init([op]) == [];
    assert ApplyOps(KvpOf(entries), [op]) == ApplyOp(ApplyOps(KvpOf(entries), []), op);
  }

  /** A committed delegate of `path`: the other grants as they were, plus `path` with the given key. */
  lemma GrantEffect(lib: Library, log: Log, e: Entry, path: Key, mk: Multikey)
    requires MultikeyLaw(lib) && log.entries != [] && IsDelegable(path) && IsGrantEntry(lib, log, e, path, mk)
    ensures Grants(lib, log.(entries := log.entries + [e])) ==
            SortByPath(Without(Grants(lib, log), path) + [PathDelegation(path, lib.encodeMultikey(mk))])
  {
    SingleOpKvp(log.entries, e, e.ops[0]);
    SnocParts(log.entries, e);
    ListingAfterGrant(lib, Last(log.entries).locks, KvpOf(log.entries), KvpOf(log.entries + [e]), path, mk);
  }

  /** A committed revoke of `path`: exactly the other grants. */
  lemma RevokeEffect(lib: Library, log: Log, e: Entry, path: Key)
    requires log.entries != [] && IsRevokeEntry(lib, log, e, path)
    ensures Grants(lib, log.(entries := log.entries + [e])) == Without(Grants(lib, log), path)
  {
    SingleOpKvp(log.entries, e, e.ops[0]);
    SnocParts(log.entries, e);
    ListingAfterRevoke(lib, Last(log.entries).locks, KvpOf(log.entries), KvpOf(log.entries + [e]), path);
  }

  /** The signing key of every target after a committed delegate. */
  lemma GrantSigner(lib: Library, log: Log, e: Entry, path: Key, mk: Multikey, target: Key)
    requires MultikeyLaw(lib) && log.entries != [] && IsDelegable(path) && IsGrantEntry(lib, log, e, path, mk)
    ensures var was, now := Grants(lib, log), Grants(lib, log.(entries := log.entries + [e]));
      var closest := ClosestParent(was, target);
      var redirected := path != target && ParentOf(path, target) && (closest.None? || |closest.value| < |path|);
      && SigningKey(now, target) == (if redirected then path + "pubkey" else SigningKey(was, target))
      && (SigningKey(now, target) != SigningKey(was, target) <==> redirected)
  {
    var d := PathDelegation(path, lib.encodeMultikey(mk));
    var rest := Without(Grants(lib, log), path);
    GrantEffect(lib, log, e, path, mk);
    SortSorts(rest + [d]);
    SameMembers(SortByPath(rest + [d]), rest + [d]);
    WithoutMembers(Grants(lib, log), path);
    SignerAfterGrant(Grants(lib, log), SortByPath(rest + [d]), d, target);
  }

  /** The signing key of every target after a committed revoke: resolution over the other grants. */
  lemma RevokeSigner(lib: Library, log: Log, e: Entry, path: Key, target: Key)
    requires log.entries != [] && IsRevokeEntry(lib, log, e, path)
    ensures var was, now := Grants(lib, log), Grants(lib, log.(entries := log.entries + [e]));
      && now == Without(was, path)
      && (SigningKey(now, target) != SigningKey(was, target) <==> ClosestParent(was, target) == Some(path))
      && (ClosestParent(was, target) == Some(path) ==>
            match ClosestParent(now, target)
            case None => Ancestors(was, target) == {path} && SigningKey(now, target) == PUBKEY
            case Some(b) => b in Ancestors(was, target) && b != path && SigningKey(now, target) == b + "pubkey" &&
                            forall a :: a in Ancestors(was, target) && a != path ==> ParentOf(a, b))
  {
    RevokeEffect(lib, log, e, path);
    SignerAfterRevoke(Grants(lib, log), path, target);
  }

  // ----- committed grants and revocations, on any account -----

  /**
    The prepare at step `i` behind a successful commit at step `j`: of this challenge, left alone since,
    and made on the log that the commit extends.
   */
  predicate Behind(lib: Library, st: AccountState, acts: seq<Action>, j: nat, i: nat)
    requires j < |acts|
  {
    && i < j && acts[i].IsPrepare() && acts[i].id == acts[j].id && OutcomeAt(lib, st, acts, i).Offered?
    && Undisturbed(lib, st, acts[..j], i, acts[j].id)
    && After(lib, st, acts[..i]).log == After(lib, st, acts[..j]).log
  }

  lemma CommittedOffer(lib: Library, st: AccountState, acts: seq<Action>, j: nat)
    returns (i: nat, p: PendingUpdate, e: Entry)
    requires LipmaaLaw(lib) && AccountInv(lib, st) && st.pending == map[]
    requires j < |acts| && acts[j].Commit? && OutcomeAt(lib, st, acts, j).Appended?
    ensures i < j && Behind(lib, st, acts, j, i)
    ensures var log, c := After(lib, st, acts[..j]).log, OutcomeAt(lib, st, acts, j).committed;
      && log.entries != [] && Fulfils(lib, log, p, OfferOf(lib, acts[i])) && c.kind == p.kind && c.path == p.path
      && e == p.unsigned.entry.(proof := e.proof)
      && After(lib, st, acts[..j + 1]).log == log.(entries := log.entries + [e])
  {
    hide Step, Fulfils, BuiltOnHead;
    i, p := CommitSafety(lib, st, acts, j);
    e := p.unsigned.entry.(proof := lib.decodeMultisig(acts[j].signature).value);
    ReachableInv(lib, st, acts[..i]);
    ReachableInv(lib, st, acts[..j]);
    HandedOutFulfils(lib, After(lib, st, acts[..i]), acts[i], p);
    assert acts[..j][..i] == acts[..i];
    LogUntouched(lib, st, acts[..j], i, acts[j].id);
  }

  /**
    A committed delegate, from any account with nothing pending: some earlier prepare asked for that
    path and a key that decodes, and the listing is then the other grants plus the path with that key.
   */
  lemma CommittedGrantEffect(lib: Library, st: AccountState, acts: seq<Action>, j: nat) returns (i: nat, mk: Multikey)
    requires LipmaaLaw(lib) && MultikeyLaw(lib) && AccountInv(lib, st) && st.pending == map[]
    requires j < |acts| && acts[j].Commit?
    requires var o := OutcomeAt(lib, st, acts, j); o.Appended? && o.committed.kind == DelegateKind
    ensures i < j && Behind(lib, st, acts, j, i) && acts[i].PrepareDelegate? && lib.decodeMultikey(acts[i].pubkey) == Some(mk)
    ensures OutcomeAt(lib, st, acts, j).committed.path == Some(acts[i].path) && IsDelegable(acts[i].path)
    ensures var was, path := Grants(lib, After(lib, st, acts[..j]).log), acts[i].path;
      Grants(lib, After(lib, st, acts[..j + 1]).log) ==
        SortByPath(Without(was, path) + [PathDelegation(path, lib.encodeMultikey(mk))])
  {
    hide Step, Grants, AccountInv, Behind;
    var p, e;
    i, p, e := CommittedOffer(lib, st, acts, j);
    mk := OfferOf(lib, acts[i]).mk;
    GrantEffect(lib, After(lib, st, acts[..j]).log, e, acts[i].path, mk);
  }

  /** A committed revoke, from any account with nothing pending: exactly the other grants are listed. */
  lemma CommittedRevokeEffect(lib: Library, st: AccountState, acts: seq<Action>, j: nat) returns (i: nat)
    requires LipmaaLaw(lib) && AccountInv(lib, st) && st.pending == map[]
    requires j < |acts| && acts[j].Commit?
    requires var o := OutcomeAt(lib, st, acts, j); o.Appended? && o.committed.kind == RevokeKind
    ensures i < j && Behind(lib, st, acts, j, i) && acts[i].PrepareRevoke?
    ensures OutcomeAt(lib, st, acts, j).committed.path == Some(acts[i].path) && IsDelegable(acts[i].path)
    ensures Grants(lib, After(lib, st, acts[..j + 1]).log) ==
            Without(Grants(lib, After(lib, st, acts[..j]).log), acts[i].path)
  {
    hide Step, Grants, AccountInv, Behind;
    var p, e;
    i, p, e := CommittedOffer(lib, st, acts, j);
    RevokeEffect(lib, After(lib, st, acts[..j]).log, e, acts[i].path);
  }

  /** Who signs for a target before and after: the closest listed ancestor decides. */
  function SignerFor(lib: Library, st: AccountState, target: Key): Key {
    SigningKey(Grants(lib, st.log), target)
  }

  /** A committed delegate redirects exactly the targets strictly below it whose closest ancestor was shorter. */
  lemma CommittedGrantSigner(lib: Library, st: AccountState, acts: seq<Action>, j: nat, target: Key)
    requires LipmaaLaw(lib) && MultikeyLaw(lib) && AccountInv(lib, st) && st.pending == map[]
    requires j < |acts| && acts[j].Commit?
    requires var o := OutcomeAt(lib, st, acts, j); o.Appended? && o.committed.kind == DelegateKind
    ensures OutcomeAt(lib, st, acts, j).committed.path.Some?
    ensures var path, before, now := OutcomeAt(lib, st, acts, j).committed.path.value, After(lib, st, acts[..j]),
                                     After(lib, st, acts[..j + 1]);
      var closest := ClosestParent(Grants(lib, before.log), target);
      var redirected := path != target && ParentOf(path, target) && (closest.None? || |closest.value| < |path|);
      && SignerFor(lib, now, target) == (if redirected then path + "pubkey" else SignerFor(lib, before, target))
      && (SignerFor(lib, now, target) != SignerFor(lib, before, target) <==> redirected)
  {
    hide Step, Grants, AccountInv, Behind, SigningKey, ClosestParent;
    var i, p, e := CommittedOffer(lib, st, acts, j);
    GrantSigner(lib, After(lib, st, acts[..j]).log, e, acts[i].path, OfferOf(lib, acts[i]).mk, target);
  }

  /** A committed revoke hands exactly the targets it was closest to back to the next longest ancestor. */
  lemma CommittedRevokeSigner(lib: Library, st: AccountState, acts: seq<Action>, j: nat, target: Key)
    requires LipmaaLaw(lib) && AccountInv(lib, st) && st.pending == map[]
    requires j < |acts| && acts[j].Commit?
    requires var o := OutcomeAt(lib, st, acts, j); o.Appended? && o.committed.kind == RevokeKind
    ensures OutcomeAt(lib, st, acts, j).committed.path.Some?
    ensures var path, before, now := OutcomeAt(lib, st, acts, j).committed.path.value, After(lib, st, acts[..j]),
                                     After(lib, st, acts[..j + 1]);
      var was := Grants(lib, before.log);
      && (SignerFor(lib, now, target) != SignerFor(lib, before, target) <==> ClosestParent(was, target) == Some(path))
      && (ClosestParent(was, target) == Some(path) ==>
            match ClosestParent(Without(was, path), target)
            case None => Ancestors(was, target) == {path} && SignerFor(lib, now, target) == PUBKEY
            case Some(b) =>
              b in Ancestors(was, target) && b != path && SignerFor(lib, now, target) == b + "pubkey" &&
              forall a :: a in Ancestors(was, target) && a != path ==> ParentOf(a, b))
  {
    hide Step, Grants, AccountInv, Behind, SigningKey, ClosestParent, Ancestors;
    var i, p, e := CommittedOffer(lib, st, acts, j);
    RevokeSigner(lib, After(lib, st, acts[..j]).log, e, acts[i].path, target);
  }

  // ----- sugar and raw requests build the same entry -----

  /** What is prepared depends on the lock spec and on the ops that come out of the params. */
  lemma SamePrepared(lib: Library, log: Log, a: PrepareSpec, b: PrepareSpec)
    requires a.locks == b.locks && OpsFromParams(lib, a.ops) == OpsFromParams(lib, b.ops)
    ensures Prepared(lib, log, a) == Prepared(lib, log, b)
  {
    hide OpsFromParams, Linked, KvpOf;
  }

  /** `prepare_delegate` hands out the message of the raw request with the lock upsert and a data update. */
  lemma DelegateEqualsRaw(lib: Library, log: Log, path: string, pubkey: string, signAs: Option<string>)
    requires BytesLaw(lib) && DelegateSpec(lib, log, path, pubkey).Success?
    requires signAs.Some? ==> IsKey(signAs.value)
    ensures var key := lib.encodeBytes(lib.multikeyBytes(lib.decodeMultikey(pubkey).value));
      var raw := UpdateSpec(lib, EntryUpdateRequest(
        Upsert(LockScript(path, DelegatedLockCode(path))), [UpdateAt(path + "pubkey", DataPayload(key))], signAs));
      raw.Success? && Prepared(lib, log, raw.value) == Prepared(lib, log, DelegateSpec(lib, log, path, pubkey).value)
  {
    hide Prepared, OpsFromParams, PlogOpsToParams, Grants, SigningKey;
    var mk := lib.decodeMultikey(pubkey).value;
    var bytes := lib.multikeyBytes(mk);
    var op := UpdateAt(path + "pubkey", DataPayload(lib.encodeBytes(bytes)));
    SingleParam(lib, op);
    SingleOp(lib, UseKey(path + "pubkey", mk));
    SingleOp(lib, UseBin(path + "pubkey", bytes));
    var raw := PrepareSpec(Upsert(LockScript(path, DelegatedLockCode(path))), [UseBin(path + "pubkey", bytes)],
                           if signAs.Some? then signAs.value else PUBKEY, EntryKind, None);
    SamePrepared(lib, log, raw, DelegateSpec(lib, log, path, pubkey).value);
  }

  /** `prepare_revoke` hands out the message of the raw request with the lock remove and a delete. */
  lemma RevokeEqualsRaw(lib: Library, log: Log, path: string, signAs: Option<string>)
    requires RevokeSpec(lib, log, path).Success?
    requires signAs.Some? ==> IsKey(signAs.value)
    ensures var raw := UpdateSpec(lib, EntryUpdateRequest(Remove(path), [DeleteAt(path + "pubkey")], signAs));
      raw.Success? && Prepared(lib, log, raw.value) == Prepared(lib, log, RevokeSpec(lib, log, path).value)
  {
    SingleParam(lib, DeleteAt(path + "pubkey"));
  }

  lemma SingleParam(lib: Library, op: PlogOp)
    ensures PlogOpsToParams(lib, [op]) ==
      (match IntoOpParams(lib, op) case Success(p) => Success([p]) case Failure(e) => Failure(e))
  {
    assert Init([op]) == [];
    assert forall p: OpParams :: [] + [p] == [p];
  }

  // ----- refinement of a map over whole runs -----

  /** The grant book: who holds which branch, and what each open challenge would do. */
  datatype Book = Book(grants: map<Key, Multikey>, offers: map<string, Offer>)

  const EMPTY_BOOK := Book(map[], map[])

  function Settle(grants: map<Key, Multikey>, offer: Offer): map<Key, Multikey> {
    match offer
    case Grant(path, mk) => grants[path := mk]
    case Withdraw(path) => grants - {path}
    case Plain => grants
  }

  /** The book follows a run from the calls and their outcomes alone. */
  function BookStep(lib: Library, b: Book, a: Action, o: Outcome): Book {
    match o
    case Offered(_) => b.(offers := b.offers[a.id := OfferOf(lib, a)])
    case Appended(_) => Book(if a.id in b.offers then Settle(b.grants, b.offers[a.id]) else b.grants, map[])
    case _ => b
  }

  function BookAfter(lib: Library, st: AccountState, b: Book, acts: seq<Action>): Book {
    if acts == [] then b
    else BookStep(lib, BookAfter(lib, st, b, Init(acts)), Last(acts),
                  Step(lib, After(lib, st, Init(acts)), Last(acts)).0)
  }

  /** `s` lists exactly the contents of `m`, once each, sorted by path. */
  ghost predicate Represents(lib: Library, s: seq<PathDelegation>, m: map<Key, Multikey>) {
    && Sorted(s)
    && (forall d :: d in s <==> d.path in m && d.pubkey == lib.encodeMultikey(m[d.path]))
    && (forall d :: multiset(s)[d] <= 1)
  }

  /** Only one listing represents a given map. */
  lemma RepresentsUnique(lib: Library, s: seq<PathDelegation>, t: seq<PathDelegation>, m: map<Key, Multikey>)
    requires Represents(lib, s, m) && Represents(lib, t, m)
    ensures s == t
  {
    forall d ensures multiset(s)[d] == multiset(t)[d] {
      assert d in s <==> d in multiset(s);
      assert d in t <==> d in multiset(t);
    }
    RepresentsFunctional(lib, s, m);
    SortedUnique(s, t);
  }

  lemma RepresentsFunctional(lib: Library, s: seq<PathDelegation>, m: map<Key, Multikey>)
    requires Represents(lib, s, m)
    ensures Functional(s)
  {
  }

  lemma RepresentsWithout(lib: Library, s: seq<PathDelegation>, m: map<Key, Multikey>, path: Key)
    requires Represents(lib, s, m)
    ensures Represents(lib, Without(s, path), m - {path})
  {
    WithoutSorted(s, path);
    WithoutMembers(s, path);
    WithoutCounts(s, path);
  }

  lemma RepresentsWith(lib: Library, s: seq<PathDelegation>, m: map<Key, Multikey>, path: Key, mk: Multikey)
    requires Represents(lib, s, m - {path})
    ensures Represents(lib, SortByPath(s + [PathDelegation(path, lib.encodeMultikey(mk))]), m[path := mk])
  {
    var d := PathDelegation(path, lib.encodeMultikey(mk));
    assert d !in s;
    assert d !in multiset(s);
    SortSorts(s + [d]);
    SameMembers(SortByPath(s + [d]), s + [d]);
  }

  /** Every lock that would be listed has its key stored: a raw write cannot complete a half grant. */
  predicate LocksGranted(lib: Library, log: Log)
    requires log.entries != []
  {
    forall l :: l in Last(log.entries).locks && IsDelegatedLock(l) ==> GrantOf(lib, l, KvpOf(log.entries)).Some?
  }

  /** What a raw commit may do: inherit the locks, and leave the keys of the current grants alone. */
  predicate LeavesGrants(lib: Library, log: Log, e: Entry)
    requires log.entries != []
  {
    && e.locks == Last(log.entries).locks
    && forall d :: d in Grants(lib, log) ==> NeverWritten(e.ops, d.path + "pubkey")
  }

  /** A successful raw commit in the run stays within these limits. */
  predicate TameStep(lib: Library, st: AccountState, a: Action) {
    a.Commit? ==>
      var r := AfterCommit(lib, st, a.id, a.signature, a.now);
      r.0.Success? && r.0.value.kind == EntryKind && st.log.entries != [] && r.1.log.entries != [] ==>
        LeavesGrants(lib, st.log, Last(r.1.log.entries))
  }

  predicate TameRun(lib: Library, st: AccountState, acts: seq<Action>) {
    forall j :: 0 <= j < |acts| ==> TameStep(lib, After(lib, st, acts[..j]), acts[j])
  }

  /** The account as `create` leaves it: verified, locks at the root only, nothing pending. */
  predicate FreshAccount(lib: Library, st: AccountState) {
    && Verified(lib, st.log) && st.pending == map[]
    && forall l :: l in Last(st.log.entries).locks ==> l.path == ROOT
  }

  ghost predicate Refines(lib: Library, st: AccountState, b: Book) {
    && AccountInv(lib, st)
    && Represents(lib, Grants(lib, st.log), b.grants)
    && LocksGranted(lib, st.log)
    && forall id :: id in st.pending ==>
         id in b.offers && Fulfils(lib, st.log, st.pending[id], b.offers[id])
  }

  lemma TameEffect(lib: Library, log: Log, e: Entry)
    requires log.entries != [] && LocksGranted(lib, log) && LeavesGrants(lib, log, e)
    ensures var log' := log.(entries := log.entries + [e]);
      Grants(lib, log') == Grants(lib, log) && LocksGranted(lib, log')
  {
    var locks, kvp, kvp' := e.locks, KvpOf(log.entries), KvpOf(log.entries + [e]);
    SnocParts(log.entries, e);
    ListingMembers(lib, locks, kvp);
    forall l | l in locks ensures GrantOf(lib, l, kvp') == GrantOf(lib, l, kvp) {
      if IsDelegatedLock(l) {
        var d := GrantOf(lib, l, kvp).value;
        assert d in Grants(lib, log);
        ApplyOpsFrame(kvp, e.ops, l.path + "pubkey");
      }
    }
    SameCollected(lib, locks, kvp, kvp');
  }

  lemma {:induction false} SameCollected(lib: Library, locks: seq<Script>, kvp: Kvp, kvp': Kvp)
    requires forall l :: l in locks ==> GrantOf(lib, l, kvp') == GrantOf(lib, l, kvp)
    ensures Collect(lib, locks, kvp') == Collect(lib, locks, kvp)
  {
    if locks != [] {
      assert locks == Init(locks) + [Last(locks)];
      SameCollected(lib, Init(locks), kvp, kvp');
    }
  }

  lemma GrantKeepsLocks(lib: Library, log: Log, e: Entry, path: Key, mk: Multikey)
    requires MultikeyLaw(lib) && log.entries != [] && IsDelegable(path) && IsGrantEntry(lib, log, e, path, mk)
    requires LocksGranted(lib, log)
    ensures LocksGranted(lib, log.(entries := log.entries + [e]))
  {
    var locks, kvp, kvp' := Last(log.entries).locks, KvpOf(log.entries), KvpOf(log.entries + [e]);
    SnocParts(log.entries, e);
    SingleOpKvp(log.entries, e, e.ops[0]);
    DropPathMembers(locks, path);
    GrantsUnaffected(lib, locks, kvp, kvp', path);
    GrantOfGenerated(lib, kvp', path, mk);
  }

  lemma RevokeKeepsLocks(lib: Library, log: Log, e: Entry, path: Key)
    requires log.entries != [] && IsRevokeEntry(lib, log, e, path) && LocksGranted(lib, log)
    ensures LocksGranted(lib, log.(entries := log.entries + [e]))
  {
    var locks, kvp, kvp' := Last(log.entries).locks, KvpOf(log.entries), KvpOf(log.entries + [e]);
    SnocParts(log.entries, e);
    SingleOpKvp(log.entries, e, e.ops[0]);
    DropPathMembers(locks, path);
    GrantsUnaffected(lib, locks, kvp, kvp', path);
  }

  /** A fulfilled offer changes the listing the way settling it changes the book. */
  lemma OfferEffect(lib: Library, log: Log, p: PendingUpdate, e: Entry, offer: Offer, grants: map<Key, Multikey>)
    requires MultikeyLaw(lib) && log.entries != [] && Fulfils(lib, log, p, offer)
    requires e == p.unsigned.entry.(proof := e.proof)
    requires LocksGranted(lib, log) && Represents(lib, Grants(lib, log), grants)
    requires offer.Plain? ==> LeavesGrants(lib, log, e)
    ensures var log' := log.(entries := log.entries + [e]);
      LocksGranted(lib, log') && Represents(lib, Grants(lib, log'), Settle(grants, offer))
  {
    match offer
    case Grant(path, mk) =>
      GrantEffect(lib, log, e, path, mk);
      GrantKeepsLocks(lib, log, e, path, mk);
      RepresentsWithout(lib, Grants(lib, log), grants, path);
      RepresentsWith(lib, Without(Grants(lib, log), path), grants, path, mk);
    case Withdraw(path) =>
      RevokeEffect(lib, log, e, path);
      RevokeKeepsLocks(lib, log, e, path);
      RepresentsWithout(lib, Grants(lib, log), grants, path);
    case Plain =>
      TameEffect(lib, log, e);
  }

  lemma AppendRefines(lib: Library, st: AccountState, b: Book, a: Action)
    requires LipmaaLaw(lib) && MultikeyLaw(lib) && Refines(lib, st, b) && a.Commit? && TameStep(lib, st, a)
    requires Step(lib, st, a).0.Appended?
    ensures Refines(lib, Step(lib, st, a).1, BookStep(lib, b, a, Step(lib, st, a).0))
  {
    hide AfterCommit, Linked, IsGrantEntry, IsRevokeEntry, Grants, Represents, LocksGranted, LeavesGrants, KvpOf;
    CommitOutcome(lib, st, a.id, a.signature, a.now);
    var e, st' := Completed(lib, st, a.id, a.signature), Step(lib, st, a).1;
    StepKeepsInv(lib, st, a);
    SnocParts(st.log.entries, e);
    hide AccountInv, BuiltOnHead, IsDelegable;
    OfferEffect(lib, st.log, st.pending[a.id], e, b.offers[a.id], b.grants);
  }

  lemma CommitRefines(lib: Library, st: AccountState, b: Book, a: Action)
    requires LipmaaLaw(lib) && MultikeyLaw(lib) && Refines(lib, st, b) && a.Commit? && TameStep(lib, st, a)
    ensures Refines(lib, Step(lib, st, a).1, BookStep(lib, b, a, Step(lib, st, a).0))
  {
    hide Fulfils, BuiltOnHead, Grants, Represents, LocksGranted, LeavesGrants;
    if Step(lib, st, a).0.Appended? {
      AppendRefines(lib, st, b, a);
    } else {
      StepKeepsInv(lib, st, a);
      hide AfterCommit, AccountInv;
      CommitOutcome(lib, st, a.id, a.signature, a.now);
    }
  }

  lemma NoAppendSameLog(lib: Library, st: AccountState, a: Action)
    requires AccountInv(lib, st) && !Step(lib, st, a).0.Appended?
    ensures Step(lib, st, a).1.log == st.log
  {
    StepGrowth(lib, st, a);
  }

  lemma PrepareFulfils(lib: Library, st: AccountState, b: Book, a: Action, id: string)
    requires LipmaaLaw(lib) && Refines(lib, st, b) && !Step(lib, st, a).0.Appended?
    requires id in Step(lib, st, a).1.pending
    ensures var b' := BookStep(lib, b, a, Step(lib, st, a).0);
      id in b'.offers && Fulfils(lib, st.log, Step(lib, st, a).1.pending[id], b'.offers[id])
  {
    hide Step, Fulfils, OfferOf, AccountInv, Represents, LocksGranted, Grants;
    var p := Step(lib, st, a).1.pending[id];
    StepPending(lib, st, a, id);
    if HandsOut(lib, st, a, id, p) {
      HandedOutFulfils(lib, st, a, p);
    }
  }

  lemma PrepareRefines(lib: Library, st: AccountState, b: Book, a: Action)
    requires LipmaaLaw(lib) && Refines(lib, st, b) && !a.Commit?
    ensures Refines(lib, Step(lib, st, a).1, BookStep(lib, b, a, Step(lib, st, a).0))
  {
    StepKeepsInv(lib, st, a);
    NoAppendSameLog(lib, st, a);
    forall id | id in Step(lib, st, a).1.pending
      ensures var b' := BookStep(lib, b, a, Step(lib, st, a).0);
        id in b'.offers && Fulfils(lib, st.log, Step(lib, st, a).1.pending[id], b'.offers[id])
    {
      PrepareFulfils(lib, st, b, a, id);
    }
  }

  lemma {:induction false} RunRefines(lib: Library, st: AccountState, b: Book, acts: seq<Action>)
    requires LipmaaLaw(lib) && MultikeyLaw(lib) && Refines(lib, st, b) && TameRun(lib, st, acts)
    ensures Refines(lib, After(lib, st, acts), BookAfter(lib, st, b, acts))
  {
    if acts != [] {
      var n := |acts| - 1;
      forall j | 0 <= j < n ensures TameStep(lib, After(lib, st, acts[..n][..j]), acts[..n][j]) {
        assert acts[..n][..j] == acts[..j];
      }
      RunRefines(lib, st, b, acts[..n]);
      assert TameStep(lib, After(lib, st, acts[..n]), acts[n]);
      if acts[n].Commit? {
        CommitRefines(lib, After(lib, st, acts[..n]), BookAfter(lib, st, b, acts[..n]), acts[n]);
      } else {
        PrepareRefines(lib, After(lib, st, acts[..n]), BookAfter(lib, st, b, acts[..n]), acts[n]);
      }
    }
  }

  /**
    Delegation refinement. From a fresh account, over any interleaving of prepares, cancels, expiries,
    failed and successful commits in which raw commits inherit the locks and leave granted keys alone,
    the listing is the path-sorted contents of the map replayed from the calls and their outcomes.
   */
  lemma DelegationRefinement(lib: Library, st: AccountState, acts: seq<Action>)
    requires LipmaaLaw(lib) && MultikeyLaw(lib) && FreshAccount(lib, st) && TameRun(lib, st, acts)
    ensures Represents(lib, Grants(lib, After(lib, st, acts).log), BookAfter(lib, st, EMPTY_BOOK, acts).grants)
    ensures PathOrdered(Grants(lib, After(lib, st, acts).log))
  {
    FreshRefines(lib, st);
    RunRefines(lib, st, EMPTY_BOOK, acts);
    SortedMeaning(Grants(lib, After(lib, st, acts).log));
  }

  lemma FreshRefines(lib: Library, st: AccountState)
    requires FreshAccount(lib, st)
    ensures Refines(lib, st, EMPTY_BOOK)
  {
    ListingMembers(lib, Last(st.log.entries).locks, KvpOf(st.log.entries));
    var s := Grants(lib, st.log);
    assert forall d :: d !in s;
    EmptyOrMember(s);
  }

  lemma EmptyOrMember(s: seq<PathDelegation>)
    ensures s == [] || exists d :: d in s
  {
    if s != [] {
      assert s[0] in s;
    }
  }

  // ----- root policy -----

  /** The locks at one path, in order. */
  function LocksAt(locks: seq<Script>, path: Key): seq<Script> {
    if locks == [] then []
    else LocksAt(Init(locks), path) + if Last(locks).path == path then [Last(locks)] else []
  }

  lemma {:induction false} LocksAtDropped(locks: seq<Script>, dropped: Key, path: Key)
    ensures LocksAt(DropPath(locks, dropped), path) == if path == dropped then [] else LocksAt(locks, path)
  {
    if locks != [] {
      LocksAtDropped(Init(locks), dropped, path);
      SnocParts(DropPath(Init(locks), dropped), Last(locks));
    }
  }

  lemma LocksAtReplaced(locks: seq<Script>, replaced: Key, add: Option<Script>, path: Key)
    requires add.Some? ==> add.value.path == replaced
    ensures LocksAt(ReplacePath(locks, replaced, add), path) ==
      if path != replaced then LocksAt(locks, path) else if add.Some? then [add.value] else []
  {
    LocksAtDropped(locks, replaced, path);
    if add.Some? {
      SnocParts(DropPath(locks, replaced), add.value);
      assert ReplacePath(locks, replaced, add) == DropPath(locks, replaced) + [add.value];
    } else {
      assert ReplacePath(locks, replaced, add) == DropPath(locks, replaced);
    }
  }

  predicate SugarOnly(lib: Library, st: AccountState, acts: seq<Action>) {
    forall j :: 0 <= j < |acts| ==>
      OutcomeAt(lib, st, acts, j).Appended? ==> OutcomeAt(lib, st, acts, j).committed.kind != EntryKind
  }

  /** Every challenge does what some offer says. */
  ghost predicate Sound(lib: Library, st: AccountState) {
    AccountInv(lib, st) &&
    forall id :: id in st.pending ==> exists offer :: Fulfils(lib, st.log, st.pending[id], offer)
  }

  ghost predicate SamePolicyAt(log: Log, log': Log, path: Key, key: Key)
    requires log.entries != [] && log'.entries != []
  {
    && LocksAt(Last(log'.entries).locks, path) == LocksAt(Last(log.entries).locks, path)
    && (key in KvpOf(log'.entries) <==> key in KvpOf(log.entries))
    && (key in KvpOf(log.entries) ==> KvpOf(log'.entries)[key] == KvpOf(log.entries)[key])
  }

  lemma StillFulfils(lib: Library, st: AccountState, a: Action, id: string)
    requires LipmaaLaw(lib) && Sound(lib, st) && !Step(lib, st, a).0.Appended?
    requires id in Step(lib, st, a).1.pending
    ensures exists offer :: Fulfils(lib, st.log, Step(lib, st, a).1.pending[id], offer)
  {
    hide Fulfils, BuiltOnHead;
    var p := Step(lib, st, a).1.pending[id];
    StepPending(lib, st, a, id);
    if HandsOut(lib, st, a, id, p) {
      HandedOutFulfils(lib, st, a, p);
    }
  }

  lemma StepSound(lib: Library, st: AccountState, a: Action)
    requires LipmaaLaw(lib) && Sound(lib, st)
    ensures Sound(lib, Step(lib, st, a).1)
  {
    hide Fulfils;
    StepKeepsInv(lib, st, a);
    if Step(lib, st, a).0.Appended? {
      CommitOutcome(lib, st, a.id, a.signature, a.now);
    } else {
      NoAppendSameLog(lib, st, a);
      forall id | id in Step(lib, st, a).1.pending
        ensures exists offer :: Fulfils(lib, st.log, Step(lib, st, a).1.pending[id], offer)
      {
        StillFulfils(lib, st, a, id);
      }
    }
  }

  lemma SugarPairs(lib: Library, log: Log, p: PendingUpdate, e: Entry, offer: Offer)
    requires log.entries != [] && Fulfils(lib, log, p, offer) && !offer.Plain? && e == p.unsigned.entry.(proof := e.proof)
    ensures SameButFor(KvpOf(log.entries), KvpOf(log.entries + [e]), offer.path + "pubkey")
  {
    hide ReplacePath, KvpOf;
    SingleOpKvp(log.entries, e, e.ops[0]);
  }

  /** The locks a sugar entry carries at each path, and the keys it leaves alone. */
  lemma SugarEntry(lib: Library, log: Log, p: PendingUpdate, e: Entry, offer: Offer, path: Key)
    requires log.entries != [] && Fulfils(lib, log, p, offer) && !offer.Plain? && e == p.unsigned.entry.(proof := e.proof)
    ensures LocksAt(e.locks, path) == LocksAt(Last(log.entries).locks, path) ||
            (path == offer.path && |LocksAt(e.locks, path)| <= 1)
    ensures SameButFor(KvpOf(log.entries), KvpOf(log.entries + [e]), offer.path + "pubkey")
    ensures offer.path != ROOT && offer.path + "pubkey" != PUBKEY
  {
    SugarPairs(lib, log, p, e, offer);
    DelegateKeyInjective(offer.path, offer.path);
    hide ReplacePath, LocksAt, SameButFor, IsDelegable;
    LocksAtReplaced(Last(log.entries).locks, offer.path,
      if offer.Grant? then Some(Code(offer.path, DelegatedLockCode(offer.path))) else None, path);
  }

  /** A sugar commit leaves the locks at `/` and the value at `/pubkey` as they were. */
  lemma SugarKeepsRoot(lib: Library, st: AccountState, a: Action)
    requires Sound(lib, st)
    requires var o := Step(lib, st, a).0; o.Appended? ==> o.committed.kind != EntryKind
    ensures Step(lib, st, a).1.log.entries != []
    ensures SamePolicyAt(st.log, Step(lib, st, a).1.log, ROOT, PUBKEY)
  {
    if Step(lib, st, a).0.Appended? {
      var e, offer := CommittedSugar(lib, st, a);
      SugarEntry(lib, st.log, st.pending[a.id], e, offer, ROOT);
      SnocParts(st.log.entries, e);
    } else {
      NoAppendSameLog(lib, st, a);
    }
  }

  lemma CommittedSugar(lib: Library, st: AccountState, a: Action) returns (e: Entry, offer: Offer)
    requires Sound(lib, st)
    requires var o := Step(lib, st, a).0; o.Appended? && o.committed.kind != EntryKind
    ensures Step(lib, st, a).1.log.entries == st.log.entries + [e]
    ensures a.id in st.pending && e == st.pending[a.id].unsigned.entry.(proof := e.proof)
    ensures Fulfils(lib, st.log, st.pending[a.id], offer) && !offer.Plain?
  {
    CommitOutcome(lib, st, a.id, a.signature, a.now);
    e := Completed(lib, st, a.id, a.signature);
    offer :| Fulfils(lib, st.log, st.pending[a.id], offer);
  }

  /** No run of committed delegates and revokes alters the locks at `/` or the value at `/pubkey`. */
  lemma {:induction false} RootPolicyKept(lib: Library, st: AccountState, acts: seq<Action>)
    requires LipmaaLaw(lib) && AccountInv(lib, st) && st.pending == map[] && SugarOnly(lib, st, acts)
    ensures Sound(lib, After(lib, st, acts))
    ensures SamePolicyAt(st.log, After(lib, st, acts).log, ROOT, PUBKEY)
  {
    if acts != [] {
      SugarPrefix(lib, st, acts);
      RootPolicyKept(lib, st, Init(acts));
      var before, a := After(lib, st, Init(acts)), Last(acts);
      assert Step(lib, before, a).0 == OutcomeAt(lib, st, acts, |acts| - 1);
      SugarKeepsRoot(lib, before, a);
      StepSound(lib, before, a);
    }
  }

  lemma SugarPrefix(lib: Library, st: AccountState, acts: seq<Action>)
    requires acts != [] && SugarOnly(lib, st, acts)
    ensures SugarOnly(lib, st, Init(acts))
  {
    forall j | 0 <= j < |acts| - 1 ensures OutcomeAt(lib, st, Init(acts), j) == OutcomeAt(lib, st, acts, j) {
      assert Init(acts)[..j] == acts[..j];
    }
  }

  /** From a log with at most one lock per path, a run of sugar commits keeps at most one lock per path. */
  lemma {:induction false} OneLockPerPath(lib: Library, st: AccountState, acts: seq<Action>, path: Key)
    requires LipmaaLaw(lib) && AccountInv(lib, st) && st.pending == map[] && SugarOnly(lib, st, acts)
    requires |LocksAt(Last(st.log.entries).locks, path)| <= 1
    ensures var log := After(lib, st, acts).log;
      log.entries != [] && |LocksAt(Last(log.entries).locks, path)| <= 1
  {
    if acts != [] {
      SugarPrefix(lib, st, acts);
      OneLockPerPath(lib, st, Init(acts), path);
      RootPolicyKept(lib, st, Init(acts));
      var before, a := After(lib, st, Init(acts)), Last(acts);
      assert Step(lib, before, a).0 == OutcomeAt(lib, st, acts, |acts| - 1);
      SugarLocks(lib, before, a, path);
    }
  }

  lemma SugarLocks(lib: Library, st: AccountState, a: Action, path: Key)
    requires Sound(lib, st)
    requires var o := Step(lib, st, a).0; o.Appended? ==> o.committed.kind != EntryKind
    requires |LocksAt(Last(st.log.entries).locks, path)| <= 1
    ensures var log := Step(lib, st, a).1.log;
      log.entries != [] && |LocksAt(Last(log.entries).locks, path)| <= 1
  {
    if Step(lib, st, a).0.Appended? {
      var e, offer := CommittedSugar(lib, st, a);
      SugarEntry(lib, st.log, st.pending[a.id], e, offer, path);
      SnocParts(st.log.entries, e);
    } else {
      NoAppendSameLog(lib, st, a);
    }
  }

  lemma {:induction false} LocksAtMember(locks: seq<Script>, l: Script)
    requires l in locks
    ensures l in LocksAt(locks, l.path)
  {
    assert locks == Init(locks) + [Last(locks)];
    if l != Last(locks) {
      LocksAtMember(Init(locks), l);
    }
  }

  /** After a sugar run from such a log every listed path has exactly one lock. */
  lemma GrantedPathsHaveOneLock(lib: Library, st: AccountState, acts: seq<Action>, d: PathDelegation)
    requires LipmaaLaw(lib) && AccountInv(lib, st) && st.pending == map[] && SugarOnly(lib, st, acts)
    requires |LocksAt(Last(st.log.entries).locks, d.path)| <= 1
    requires d in Grants(lib, After(lib, st, acts).log)
    ensures |LocksAt(Last(After(lib, st, acts).log.entries).locks, d.path)| == 1
  {
    OneLockPerPath(lib, st, acts, d.path);
    var log := After(lib, st, acts).log;
    ListingMembers(lib, Last(log.entries).locks, KvpOf(log.entries));
    var l :| l in Last(log.entries).locks && GrantOf(lib, l, KvpOf(log.entries)) == Some(d);
    LocksAtMember(Last(log.entries).locks, l);
  }

  // ----- reading values -----

  /** How a stored value is shown: text as it is, a key in its multikey encoding, other bytes as bytes. */
  ghost predicate ShownAs(lib: Library, v: Value, shown: PlogPathValue) {
    match v
    case Str(s) => shown == StrValue(s)
    case Data(b) =>
      && (forall mk :: lib.multikeyFromBytes(b) == Some(mk) ==> shown == BinValue(lib.encodeMultikey(mk)))
      && (lib.multikeyFromBytes(b).None? ==> shown == BinValue(lib.encodeBytes(b)))
    case Nil => shown == BinValue(lib.encodeBytes([]))
  }

  /**
    `get_value` is last-writer over the whole history of committed ops: the value of the last op other
    than a noop on the key, not found iff there is none or it deletes. A path that is no key and a log
    that does not verify are reported, in this order.
   */
  lemma GetValueIsLastWriter(lib: Library, log: Log, path: string)
    ensures var ops, r := History(log.entries), PlogValueAt(lib, log, path);
      if path == "" || path[0] != '/' then r == Failure(InvalidOp)
      else if !Verified(lib, log) then r == Failure(PlogVerifyFailed)
      else
        && (forall i: nat :: LastWriter(ops, path, i) ==>
              if ops[i].Update? then r.Success? && ShownAs(lib, ops[i].value, r.value)
              else r == Failure(PathNotFound(path)))
        && (NeverWritten(ops, path) ==> r == Failure(PathNotFound(path)))
        && (NeverWritten(ops, path) || exists i: nat :: LastWriter(ops, path, i))
  {
    var ops := History(log.entries);
    KvpOfHistory(log.entries);
    forall i: nat | LastWriter(ops, path, i)
      ensures ops[i].Delete? ==> path !in KvpOf(log.entries)
      ensures ops[i].Update? ==> path in KvpOf(log.entries) && KvpOf(log.entries)[path] == ops[i].value
    {
      ApplyOpsLastWriter(map[], ops, path, i);
    }
    if NeverWritten(ops, path) {
      ApplyOpsFrame(map[], ops, path);
    }
    var i := LastWriterExists(ops, path);
  }

  /** The key in a summary is what was last written to `/pubkey`, shown as text; none if nothing is there. */
  lemma SummaryKeyIsLastWriter(lib: Library, log: Log, i: nat)
    requires Verified(lib, log)
    ensures var ops, key := History(log.entries), Summary(lib, log).value.pubkey;
      && (LastWriter(ops, "/pubkey", i) && ops[i].Update? ==>
            key.Some? && (ShownAs(lib, ops[i].value, BinValue(key.value)) ||
                          ShownAs(lib, ops[i].value, StrValue(key.value))))
      && (LastWriter(ops, "/pubkey", i) && ops[i].Delete? ==> key.None?)
      && (NeverWritten(ops, "/pubkey") ==> key.None?)
  {
    SummarySucceeds(lib, log);
    GetValueIsLastWriter(lib, log, "/pubkey");
    hide Summary, Verified;
  }

  /** After a committed delegate, reading the path's key gives the key the listing shows. */
  lemma CommittedGrantValue(lib: Library, st: AccountState, acts: seq<Action>, j: nat) returns (i: nat, mk: Multikey)
    requires LipmaaLaw(lib) && MultikeyLaw(lib) && AccountInv(lib, st) && st.pending == map[]
    requires j < |acts| && acts[j].Commit?
    requires var o := OutcomeAt(lib, st, acts, j); o.Appended? && o.committed.kind == DelegateKind
    ensures i < j && Behind(lib, st, acts, j, i) && acts[i].PrepareDelegate? && lib.decodeMultikey(acts[i].pubkey) == Some(mk)
    ensures var log, path := After(lib, st, acts[..j + 1]).log, acts[i].path;
      && PlogValueAt(lib, log, path + "pubkey") == Success(BinValue(lib.encodeMultikey(mk)))
      && PathDelegation(path, lib.encodeMultikey(mk)) in Grants(lib, log)
  {
    hide Step, AccountInv, Behind, Grants;
    var p, e;
    i, p, e := CommittedOffer(lib, st, acts, j);
    mk := OfferOf(lib, acts[i]).mk;
    var log, path := After(lib, st, acts[..j]).log, acts[i].path;
    SingleOpKvp(log.entries, e, e.ops[0]);
    StoredKey(lib, st, acts[..j + 1], path, mk);
    GrantEffect(lib, log, e, path, mk);
    var rest, d := Without(Grants(lib, log), path), PathDelegation(path, lib.encodeMultikey(mk));
    ListingOrder(rest + [d]);
    SameMembers(SortByPath(rest + [d]), rest + [d]);
    assert (rest + [d])[|rest|] == d;
  }

  lemma StoredKey(lib: Library, st: AccountState, acts: seq<Action>, path: Key, mk: Multikey)
    requires LipmaaLaw(lib) && MultikeyLaw(lib) && AccountInv(lib, st) && IsDelegable(path)
    requires var kvp := KvpOf(After(lib, st, acts).log.entries);
      path + "pubkey" in kvp && kvp[path + "pubkey"] == Data(lib.multikeyBytes(mk))
    ensures PlogValueAt(lib, After(lib, st, acts).log, path + "pubkey") == Success(BinValue(lib.encodeMultikey(mk)))
  {
    ReachableInv(lib, st, acts);
    assert (path + "pubkey")[0] == path[0];
  }

  /** After a committed revoke, reading the path's key finds nothing. */
  lemma CommittedRevokeValue(lib: Library, st: AccountState, acts: seq<Action>, j: nat)
    requires LipmaaLaw(lib) && AccountInv(lib, st) && st.pending == map[]
    requires j < |acts| && acts[j].Commit?
    requires var o := OutcomeAt(lib, st, acts, j); o.Appended? && o.committed.kind == RevokeKind
    ensures OutcomeAt(lib, st, acts, j).committed.path.Some?
    ensures var key := OutcomeAt(lib, st, acts, j).committed.path.value + "pubkey";
      PlogValueAt(lib, After(lib, st, acts[..j + 1]).log, key) == Failure(PathNotFound(key))
  {
    hide Step, Behind, Grants;
    var i, p, e := CommittedOffer(lib, st, acts, j);
    var log, path := After(lib, st, acts[..j]).log, acts[i].path;
    SingleOpKvp(log.entries, e, e.ops[0]);
    assert path + "pubkey" !in KvpOf(log.entries + [e]);
    ReachableInv(lib, st, acts[..j + 1]);
    assert (path + "pubkey")[0] == path[0];
  }
}
