/**
  Delegations as seen at a verified head: the listing joined from lock scripts and key-value pairs,
  and the choice of the closest-parent signing key over it.
 */
module Delegations {
  import opened Wrappers
  import opened Errors
  import opened Sequences
  import opened Keys
  import opened Sorting
  import opened Plog
  import opened EntryUpdate

  // ----- closest parent -----

  /** The delegated proper ancestors of `target` named by a listing. */
  ghost function Ancestors(ds: seq<PathDelegation>, target: Key): set<Key> {
    set d | d in ds && Delegates(d, target) :: d.path
  }

  predicate Delegates(d: PathDelegation, target: Key) {
    IsDelegable(d.path) && d.path != target && ParentOf(d.path, target)
  }

  function ClosestParent(ds: seq<PathDelegation>, target: Key): Option<Key> {
    if ds == [] then None
    else
      var best := ClosestParent(Init(ds), target);
      if Delegates(Last(ds), target) && (best.None? || |Last(ds).path| > |best.value|) then Some(Last(ds).path)
      else best
  }

  function SigningKey(ds: seq<PathDelegation>, target: Key): Key {
    match ClosestParent(ds, target)
    case Some(branch) => branch + "pubkey"
    case None => PUBKEY
  }

  /** `b` is the delegated proper ancestor of `target` that every other one is an ancestor of. */
  ghost predicate IsClosest(ds: seq<PathDelegation>, target: Key, b: Key) {
    b in Ancestors(ds, target) && forall a :: a in Ancestors(ds, target) ==> ParentOf(a, b)
  }

  /** What the loop computes: the closest delegated proper ancestor, or none iff there is none. */
  lemma {:induction false} ClosestParentCorrect(ds: seq<PathDelegation>, target: Key)
    ensures ClosestParent(ds, target).None? <==> Ancestors(ds, target) == {}
    ensures ClosestParent(ds, target).Some? ==> IsClosest(ds, target, ClosestParent(ds, target).value)
    ensures ClosestParent(ds, target).Some? ==> IsDelegable(ClosestParent(ds, target).value)
  {
    if ds == [] {
      assert Ancestors(ds, target) == {};
    } else {
      ClosestParentCorrect(Init(ds), target);
      AncestorsSnoc(ds, target);
      var before, d := Ancestors(Init(ds), target), Last(ds);
      if Delegates(d, target) {
        forall a | a in before ensures |a| <= |d.path| ==> ParentOf(a, d.path) {
          AncestorsFormChain(a, d.path, target);
        }
        if before != {} {
          AncestorsFormChain(d.path, ClosestParent(Init(ds), target).value, target);
        }
      }
    }
  }

  /** The delegated proper ancestors: listed branches other than the root and the target, a prefix of the target. */
  lemma AncestorsMeaning(ds: seq<PathDelegation>, target: Key, p: Key)
    ensures p in Ancestors(ds, target) <==>
      && (exists d :: d in ds && d.path == p)
      && p != "" && p[0] == '/' && p[|p| - 1] == '/' && p != "/"
      && p != target && p <= target
  {
    if d :| d in ds && d.path == p {
      assert Delegates(d, target) <==> Delegates(PathDelegation(p, ""), target);
    }
  }

  lemma AncestorsSnoc(ds: seq<PathDelegation>, target: Key)
    requires ds != []
    ensures Ancestors(ds, target) ==
      Ancestors(Init(ds), target) + if Delegates(Last(ds), target) then {Last(ds).path} else {}
  {
  }

  /** There is at most one closest ancestor. */
  lemma ClosestIsUnique(ds: seq<PathDelegation>, target: Key, b: Key)
    requires IsClosest(ds, target, b)
    ensures ClosestParent(ds, target) == Some(b)
  {
    ClosestParentCorrect(ds, target);
    var A := Ancestors(ds, target);
    assert b in A;
    var c := ClosestParent(ds, target).value;
    assert c in A;
    assert ParentOf(b, c) && ParentOf(c, b);
    assert b <= c && c <= b;
    assert |b| == |c|;
    assert b == c;
  }

  ghost function Paths(ds: seq<PathDelegation>): set<string> {
    set d | d in ds :: d.path
  }

  lemma AncestorsOfPaths(ds: seq<PathDelegation>, target: Key)
    ensures Ancestors(ds, target) == set p | p in Paths(ds) && Delegates(PathDelegation(p, ""), target)
  {
  }

  /** Only the set of listed paths matters: order, repetition and the listed keys do not. */
  lemma SignerDependsOnPaths(ds: seq<PathDelegation>, es: seq<PathDelegation>, target: Key)
    requires Paths(ds) == Paths(es)
    ensures SigningKey(ds, target) == SigningKey(es, target)
  {
    AncestorsOfPaths(ds, target);
    AncestorsOfPaths(es, target);
    assert Ancestors(ds, target) == Ancestors(es, target);
    ClosestParentCorrect(ds, target);
    ClosestParentCorrect(es, target);
  }

  method ResolveClosestParentSigningKey(target: Key, delegations: seq<PathDelegation>)
    returns (r: Result<string, Error>)
    ensures r == Success(SigningKey(delegations, target))
    ensures Ancestors(delegations, target) == {} ==> r == Success(PUBKEY)
    ensures forall b :: IsClosest(delegations, target, b) ==> r == Success(b + "pubkey")
  {
    var best: Option<Key> := None;
    for i := 0 to |delegations|
      invariant best == ClosestParent(delegations[..i], target)
    {
      TakeSnoc(delegations, i);
      var d := delegations[i];
      var parsed := ParseBranchPath(d.path);
      if parsed.Failure? {
        continue;
      }
      var key := parsed.value;
      if key == target {
        continue;
      }
      if ParentOf(key, target) {
        if best.None? || |key| > |best.value| {
          best := Some(key);
        }
      }
    }
    assert delegations[..|delegations|] == delegations;
    ClosestParentCorrect(delegations, target);
    forall b | IsClosest(delegations, target, b) ensures best == Some(b) {
      ClosestIsUnique(delegations, target, b);
    }
    if best.Some? {
      r := DelegatePubkeyKey(best.value);
    } else {
      r := Success(PUBKEY);
    }
  }

  // ----- signing key after a grant or a revocation -----

  /** `es` lists what `ds` lists, except that `d` is the only grant at its path. */
  ghost predicate Regrants(ds: seq<PathDelegation>, es: seq<PathDelegation>, d: PathDelegation) {
    forall x :: x in es <==> (x in ds && x.path != d.path) || x == d
  }

  lemma AncestorsAfterGrant(ds: seq<PathDelegation>, es: seq<PathDelegation>, d: PathDelegation, target: Key)
    requires Regrants(ds, es, d)
    ensures Ancestors(Without(ds, d.path), target) == Ancestors(ds, target) - {d.path}
    ensures Ancestors(es, target) ==
      Ancestors(Without(ds, d.path), target) + if Delegates(d, target) then {d.path} else {}
  {
    var rest := Without(ds, d.path);
    WithoutMembers(ds, d.path);
    forall p | p in Ancestors(ds, target) - {d.path} ensures p in Ancestors(rest, target) {
      var x :| x in ds && Delegates(x, target) && x.path == p;
      assert x in rest;
    }
    forall p | p in Ancestors(rest, target) ensures p in Ancestors(es, target) {
      var x :| x in rest && Delegates(x, target) && x.path == p;
      assert x in es;
    }
  }

  /** A grant closer than all others takes over. */
  lemma CloserGrantSigns(ds: seq<PathDelegation>, es: seq<PathDelegation>, d: PathDelegation, target: Key)
    requires Regrants(ds, es, d) && Delegates(d, target)
    requires var rest := ClosestParent(Without(ds, d.path), target); rest.None? || |rest.value| < |d.path|
    ensures ClosestParent(es, target) == Some(d.path)
  {
    ClosestParentCorrect(Without(ds, d.path), target);
    AncestorsAfterGrant(ds, es, d, target);
    forall a | a in Ancestors(es, target) ensures ParentOf(a, d.path) {
      AncestorsFormChain(a, d.path, target);
    }
    ClosestIsUnique(es, target, d.path);
  }

  /** A grant that is not the closest ancestor changes nothing. */
  lemma FartherGrantIgnored(ds: seq<PathDelegation>, es: seq<PathDelegation>, d: PathDelegation, target: Key)
    requires Regrants(ds, es, d) && Delegates(d, target)
    requires var rest := ClosestParent(Without(ds, d.path), target); rest.Some? && |rest.value| >= |d.path|
    ensures ClosestParent(es, target) == ClosestParent(ds, target) == ClosestParent(Without(ds, d.path), target)
    ensures |ClosestParent(ds, target).value| > |d.path|
  {
    var rest := ClosestParent(Without(ds, d.path), target).value;
    ClosestParentCorrect(Without(ds, d.path), target);
    AncestorsAfterGrant(ds, es, d, target);
    AncestorsFormChain(d.path, rest, target);
    ClosestIsUnique(ds, target, rest);
    ClosestIsUnique(es, target, rest);
  }

  /** Two listings with the same ancestors of a target have the same closest one. */
  lemma SameAncestorsSameClosest(ds: seq<PathDelegation>, es: seq<PathDelegation>, target: Key)
    requires Ancestors(ds, target) == Ancestors(es, target)
    ensures ClosestParent(ds, target) == ClosestParent(es, target)
  {
    ClosestParentCorrect(ds, target);
    ClosestParentCorrect(es, target);
    if ClosestParent(ds, target).Some? {
      ClosestIsUnique(es, target, ClosestParent(ds, target).value);
    }
  }

  /**
    Granting `d.path` redirects to its key exactly the targets strictly below it whose closest
    delegated ancestor was shorter; every other target keeps its signing key.
   */
  lemma SignerAfterGrant(ds: seq<PathDelegation>, es: seq<PathDelegation>, d: PathDelegation, target: Key)
    requires Regrants(ds, es, d)
    ensures var was := ClosestParent(ds, target);
      SigningKey(es, target) ==
        if Delegates(d, target) && (was.None? || |was.value| < |d.path|) then d.path + "pubkey"
        else SigningKey(ds, target)
    ensures var was := ClosestParent(ds, target);
      SigningKey(es, target) != SigningKey(ds, target) <==>
        Delegates(d, target) && (was.None? || |was.value| < |d.path|)
  {
    var was, rest := ClosestParent(ds, target), ClosestParent(Without(ds, d.path), target);
    AncestorsAfterGrant(ds, es, d, target);
    ClosestParentCorrect(ds, target);
    if !Delegates(d, target) {
      assert d.path !in Ancestors(ds, target);
      SameAncestorsSameClosest(ds, es, target);
    } else if rest.None? || |rest.value| < |d.path| {
      CloserGrantSigns(ds, es, d, target);
      DelegateKeyInjective(d.path, d.path);
      if d.path in Ancestors(ds, target) {
        SameAncestorsSameClosest(ds, es, target);
      } else {
        SameAncestorsSameClosest(ds, Without(ds, d.path), target);
        if was.Some? {
          DelegateKeyInjective(was.value, d.path);
        }
      }
    } else {
      FartherGrantIgnored(ds, es, d, target);
    }
  }

  /**
    Revoking a path re-signs exactly the targets whose closest delegated ancestor it was, with the
    next longest ancestor; grants nested below it keep signing for their own targets.
   */
  lemma SignerAfterRevoke(ds: seq<PathDelegation>, path: Key, target: Key)
    ensures var rest, was := Without(ds, path), ClosestParent(ds, target);
      && (was != Some(path) ==> SigningKey(rest, target) == SigningKey(ds, target))
      && (was == Some(path) ==>
            && SigningKey(rest, target) != SigningKey(ds, target)
            && (match ClosestParent(rest, target)
                case None => Ancestors(ds, target) == {path}
                case Some(b) =>
                  (b in Ancestors(ds, target) && ParentOf(b, path) && b != path &&
                   forall a :: a in Ancestors(ds, target) && a != path ==> ParentOf(a, b))))
  {
    var rest, was := Without(ds, path), ClosestParent(ds, target);
    ClosestParentCorrect(ds, target);
    ClosestParentCorrect(rest, target);
    AncestorsWithout(ds, path, target);
    if was.Some? && was.value != path {
      ClosestIsUnique(rest, target, was.value);
    } else if was == Some(path) {
      DelegateKeyInjective(path, path);
      if ClosestParent(rest, target).Some? {
        DelegateKeyInjective(ClosestParent(rest, target).value, path);
      }
    }
  }

  lemma AncestorsWithout(ds: seq<PathDelegation>, path: Key, target: Key)
    ensures Ancestors(Without(ds, path), target) == Ancestors(ds, target) - {path}
  {
    WithoutMembers(ds, path);
    forall p | p in Ancestors(ds, target) - {path} ensures p in Ancestors(Without(ds, path), target) {
      var x :| x in ds && Delegates(x, target) && x.path == p;
      assert x in Without(ds, path);
    }
  }

  // ----- the listing -----

  function EncodedGrant(lib: Library, v: Value): Option<string> {
    match v
    case Data(b) =>
      (match lib.multikeyFromBytes(b) case Some(mk) => Some(lib.encodeMultikey(mk)) case None => None)
    case Str(s) => Some(s)
    case Nil => None
  }

  predicate IsDelegatedLock(lock: Script) {
    IsBranch(lock.path) && lock.path != ROOT && lock.Code? && LooksDelegated(lock.path, lock.code)
  }

  /** The grant a lock stands for, given the pairs at the head. */
  function GrantOf(lib: Library, lock: Script, kvp: Kvp): Option<PathDelegation> {
    if !IsDelegatedLock(lock) then None
    else match DelegatePubkeyKey(lock.path)
      case Failure(_) => None
      case Success(key) =>
        if key !in kvp then None
        else match EncodedGrant(lib, kvp[key])
          case None => None
          case Some(pubkey) => Some(PathDelegation(lock.path, pubkey))
  }

  /**
    What the listing takes a lock and the pairs at the head for: a script at a branch below the root that
    checks the key stored under the branch, absolutely or by `branch("pubkey")`, with that key as text.
   */
  ghost predicate StandsFor(lib: Library, lock: Script, kvp: Kvp, d: PathDelegation) {
    var p, key := d.path, d.path + "pubkey";
    && lock.Code? && lock.path == p
    && p != "" && p[0] == '/' && p[|p| - 1] == '/' && p != "/"
    && ((exists i :: 0 <= i <= |lock.code| && "check_signature(\"" + p + "pubkey\"" <= lock.code[i..]) ||
        (exists i :: 0 <= i <= |lock.code| && "branch(\"pubkey\")" <= lock.code[i..]))
    && key in kvp
    && match kvp[key]
       case Str(s) => d.pubkey == s
       case Data(b) => lib.multikeyFromBytes(b).Some? && d.pubkey == lib.encodeMultikey(lib.multikeyFromBytes(b).value)
       case Nil => false
  }

  lemma GrantMeaning(lib: Library, lock: Script, kvp: Kvp, d: PathDelegation)
    ensures GrantOf(lib, lock, kvp) == Some(d) <==> StandsFor(lib, lock, kvp, d)
  {
    var p := lock.path;
    if p != "" {
      assert (p + "pubkey")[0] == p[0];
    }
    if lock.Code? {
      LooksMeaning(p, lock.code);
    }
    hide LooksDelegated;
  }

  lemma LooksMeaning(path: Key, code: string)
    ensures LooksDelegated(path, code) <==>
      || (exists i :: 0 <= i <= |code| && "check_signature(\"" + path + "pubkey\"" <= code[i..])
      || (exists i :: 0 <= i <= |code| && "branch(\"pubkey\")" <= code[i..])
  {
  }

  function Collect(lib: Library, locks: seq<Script>, kvp: Kvp): seq<PathDelegation> {
    if locks == [] then []
    else
      var before := Collect(lib, Init(locks), kvp);
      match GrantOf(lib, Last(locks), kvp)
      case None => before
      case Some(d) => before + [d]
  }

  function Listing(lib: Library, locks: seq<Script>, kvp: Kvp): seq<PathDelegation> {
    SortByPath(Collect(lib, locks, kvp))
  }

  /** The grants listed for a log. */
  function Grants(lib: Library, log: Log): seq<PathDelegation> {
    if log.entries == [] then [] else Listing(lib, Last(log.entries).locks, KvpOf(log.entries))
  }

  method ListDelegations(lib: Library, log: Log) returns (r: Result<seq<PathDelegation>, Error>)
    ensures r == if Verified(lib, log) then Success(Grants(lib, log)) else Failure(PlogVerifyFailed)
    ensures r.Success? ==> PathOrdered(r.value) && forall d ::
      multiset(r.value)[d] == LocksFor(lib, Last(log.entries).locks, KvpOf(log.entries), d)
  {
    hide StepOk, KvpOf, LooksDelegated, SortByPath, StandsFor, PathOrdered;
    LastItemDecides(lib, log);
    var items := VerifyItems(lib, log);
    var last: Option<Item> := None;
    for i := 0 to |items|
      invariant forall j :: 0 <= j < i ==> items[j].Success?
      invariant i > 0 ==> last.Some? && items[i - 1] == Success(last.value)
    {
      if items[i].Failure? {
        return Failure(PlogVerifyFailed);
      }
      last := Some(items[i].value);
    }
    if items == [] {
      return Failure(PlogVerifyFailed);
    }
    var locks, kvp := last.value.entry.locks, last.value.kvp;
    var out: seq<PathDelegation> := [];
    for i := 0 to |locks|
      invariant out == Collect(lib, locks[..i], kvp)
    {
      TakeSnoc(locks, i);
      var lock := locks[i];
      if !IsBranch(lock.path) || lock.path == ROOT {
        continue;
      }
      var isDelegated := lock.Code? && LooksDelegated(lock.path, lock.code);
      if !isDelegated {
        continue;
      }
      var key := DelegatePubkeyKey(lock.path);
      if key.Failure? {
        continue;
      }
      var pubkey := if key.value in kvp then EncodedGrant(lib, kvp[key.value]) else None;
      if pubkey.Some? {
        out := out + [PathDelegation(lock.path, pubkey.value)];
      }
    }
    assert locks[..|locks|] == locks;
    ListingMeaning(lib, locks, kvp);
    r := Success(SortByPath(out));
  }

  /** A collected grant comes from a lock at its path, and carries what the head holds for that path. */
  lemma {:induction false} CollectMembers(lib: Library, locks: seq<Script>, kvp: Kvp)
    ensures forall d :: d in Collect(lib, locks, kvp) <==> exists l :: l in locks && GrantOf(lib, l, kvp) == Some(d)
  {
    if locks != [] {
      CollectMembers(lib, Init(locks), kvp);
      assert locks == Init(locks) + [Last(locks)];
    }
  }

  lemma CollectFunctional(lib: Library, locks: seq<Script>, kvp: Kvp)
    ensures Functional(Collect(lib, locks, kvp))
  {
    var s := Collect(lib, locks, kvp);
    CollectMembers(lib, locks, kvp);
    forall i, j | 0 <= i < |s| && 0 <= j < |s| && s[i].path == s[j].path ensures s[i] == s[j] {
      assert s[i] in s && s[j] in s;
    }
  }

  lemma ListingMembers(lib: Library, locks: seq<Script>, kvp: Kvp)
    ensures forall d :: d in Listing(lib, locks, kvp) <==> exists l :: l in locks && GrantOf(lib, l, kvp) == Some(d)
  {
    CollectMembers(lib, locks, kvp);
    SortSorts(Collect(lib, locks, kvp));
    SameMembers(Listing(lib, locks, kvp), Collect(lib, locks, kvp));
  }

  /** How many locks stand for a grant. */
  ghost function LocksFor(lib: Library, locks: seq<Script>, kvp: Kvp, d: PathDelegation): nat {
    if locks == [] then 0
    else LocksFor(lib, Init(locks), kvp, d) + if StandsFor(lib, Last(locks), kvp, d) then 1 else 0
  }

  lemma CollectSnoc(lib: Library, locks: seq<Script>, kvp: Kvp, d: PathDelegation)
    requires locks != []
    ensures multiset(Collect(lib, locks, kvp))[d] ==
      multiset(Collect(lib, Init(locks), kvp))[d] + if GrantOf(lib, Last(locks), kvp) == Some(d) then 1 else 0
  {
    hide GrantOf;
  }

  lemma {:induction false} CollectCounts(lib: Library, locks: seq<Script>, kvp: Kvp, d: PathDelegation)
    ensures multiset(Collect(lib, locks, kvp))[d] == LocksFor(lib, locks, kvp, d)
  {
    hide GrantOf, StandsFor;
    if locks != [] {
      CollectCounts(lib, Init(locks), kvp, d);
      GrantMeaning(lib, Last(locks), kvp, d);
      CollectSnoc(lib, locks, kvp, d);
    }
  }

  /** The listing holds each grant once per lock that stands for it, in byte-wise order of paths. */
  lemma ListingMeaning(lib: Library, locks: seq<Script>, kvp: Kvp)
    ensures PathOrdered(Listing(lib, locks, kvp))
    ensures forall d :: multiset(Listing(lib, locks, kvp))[d] == LocksFor(lib, locks, kvp, d)
  {
    ListingOrder(Collect(lib, locks, kvp));
    forall d ensures multiset(Listing(lib, locks, kvp))[d] == LocksFor(lib, locks, kvp, d) {
      CollectCounts(lib, locks, kvp, d);
    }
  }

  /** Dropping a path's locks drops that path's grants and nothing else, when only its key may change. */
  lemma {:induction false} CollectDropped(lib: Library, locks: seq<Script>, kvp: Kvp, kvp': Kvp, path: Key)
    requires forall l :: l in locks && l.path != path ==> GrantOf(lib, l, kvp') == GrantOf(lib, l, kvp)
    ensures Collect(lib, DropPath(locks, path), kvp') == Without(Collect(lib, locks, kvp), path)
  {
    if locks != [] {
      assert locks == Init(locks) + [Last(locks)];
      CollectDropped(lib, Init(locks), kvp, kvp', path);
      var d := GrantOf(lib, Last(locks), kvp);
      if d.Some? {
        SnocParts(Collect(lib, Init(locks), kvp), d.value);
      }
    }
  }

  ghost predicate SameButFor(kvp: Kvp, kvp': Kvp, key: Key) {
    forall k :: k != key ==> (k in kvp <==> k in kvp') && (k in kvp ==> kvp[k] == kvp'[k])
  }

  lemma GrantsUnaffected(lib: Library, locks: seq<Script>, kvp: Kvp, kvp': Kvp, path: Key)
    requires SameButFor(kvp, kvp', path + "pubkey")
    ensures forall l :: l in locks && l.path != path ==> GrantOf(lib, l, kvp') == GrantOf(lib, l, kvp)
  {
    forall l | l in locks && l.path != path ensures GrantOf(lib, l, kvp') == GrantOf(lib, l, kvp) {
      DelegateKeyInjective(l.path, path);
    }
  }

  /** Removing a path's locks and deleting its key leaves exactly the other grants. */
  lemma ListingAfterRevoke(lib: Library, locks: seq<Script>, kvp: Kvp, kvp': Kvp, path: Key)
    requires SameButFor(kvp, kvp', path + "pubkey")
    ensures Listing(lib, ReplacePath(locks, path, None), kvp') == Without(Listing(lib, locks, kvp), path)
  {
    GrantsUnaffected(lib, locks, kvp, kvp', path);
    CollectDropped(lib, locks, kvp, kvp', path);
    CollectFunctional(lib, locks, kvp);
    SortWithout(Collect(lib, locks, kvp), path);
    assert ReplacePath(locks, path, None) == DropPath(locks, path);
  }

  /** The generated lock together with the stored key is listed as a grant of that key. */
  lemma GrantOfGenerated(lib: Library, kvp: Kvp, path: Key, mk: Multikey)
    requires MultikeyLaw(lib) && IsDelegable(path)
    requires path + "pubkey" in kvp && kvp[path + "pubkey"] == Data(lib.multikeyBytes(mk))
    ensures GrantOf(lib, Code(path, DelegatedLockCode(path)), kvp) ==
            Some(PathDelegation(path, lib.encodeMultikey(mk)))
  {
    GeneratedCodeLooksDelegated(path);
  }

  /** Upserting the generated lock and storing the key leaves the other grants plus the new one, sorted. */
  lemma ListingAfterGrant(lib: Library, locks: seq<Script>, kvp: Kvp, kvp': Kvp, path: Key, mk: Multikey)
    requires MultikeyLaw(lib) && IsDelegable(path)
    requires SameButFor(kvp, kvp', path + "pubkey")
    requires path + "pubkey" in kvp' && kvp'[path + "pubkey"] == Data(lib.multikeyBytes(mk))
    ensures Listing(lib, ReplacePath(locks, path, Some(Code(path, DelegatedLockCode(path)))), kvp') ==
            SortByPath(Without(Listing(lib, locks, kvp), path) + [PathDelegation(path, lib.encodeMultikey(mk))])
  {
    var was, d := Collect(lib, locks, kvp), PathDelegation(path, lib.encodeMultikey(mk));
    var lock := Code(path, DelegatedLockCode(path));
    GrantsUnaffected(lib, locks, kvp, kvp', path);
    CollectDropped(lib, locks, kvp, kvp', path);
    GrantOfGenerated(lib, kvp', path, mk);
    var next := ReplacePath(locks, path, Some(lock));
    SnocParts(DropPath(locks, path), lock);
    assert next == DropPath(locks, path) + [lock];
    assert Collect(lib, next, kvp') == Without(was, path) + [d];
    CollectFunctional(lib, next, kvp');
    CollectFunctional(lib, locks, kvp);
    SortWithout(was, path);
    SortSorts(Without(was, path));
    SortIgnoresOrder(Without(was, path) + [d], SortByPath(Without(was, path)) + [d]);
  }
}
