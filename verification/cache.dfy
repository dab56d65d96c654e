/**
  The in-process cache of account objects, indexed by the hash of the canonical VLAD encoding. Seen
  from outside it is a map from VLAD to account state.
 */
module Cache {
  import opened Wrappers
  import opened Errors
  import opened Plog
  import opened Account
  import opened Hex

  /** No two VLADs in use collide under the cache hash (SHA-256 of the canonical encoding). */
  ghost predicate HashLaw(lib: Library) {
    forall v: Vlad, w: Vlad :: VladHash(lib, v) == VladHash(lib, w) ==> v == w
  }

  function VladHash(lib: Library, v: Vlad): Bytes {
    lib.hashVlad(lib.encodeVlad(v))
  }

  /** Decode, encode canonically, hash: every spelling of a VLAD has the same key. */
  function KeyFromMultibase(lib: Library, vlad: string): Result<Bytes, Error> {
    match lib.decodeVlad(vlad)
    case None => Failure(Encoding)
    case Some(v) => Success(VladHash(lib, v))
  }

  function HashHexShort(hash: Bytes): string {
    var full := EncodeHex(hash);
    if |full| <= 16 then full else full[..16]
  }

  function NotCached(lib: Library, v: Vlad): Error {
    AccountNotCached(HashHexShort(VladHash(lib, v)))
  }

  /** What looking up `vlad` in a map of accounts yields. */
  function Lookup(lib: Library, accounts: map<Vlad, AccountState>, vlad: string): Result<Vlad, Error> {
    match lib.decodeVlad(vlad)
    case None => Failure(Encoding)
    case Some(v) => if v in accounts then Success(v) else Failure(NotCached(lib, v))
  }

  lemma NoCollision(lib: Library, v: Vlad, w: Vlad)
    requires HashLaw(lib)
    ensures VladHash(lib, v) == VladHash(lib, w) ==> v == w
  {
  }

  class AccountCache {
    const lib: Library
    var entries: map<Bytes, PlogAccount>

    /** What the cache is seen to hold: the state of each account, by VLAD. */
    ghost var view: map<Vlad, AccountState>

    /** Every slot's key is the hash of its account's own VLAD, and `view` is what the slots hold. */
    ghost predicate Valid()
      reads this, entries.Values
    {
      && (forall v :: v in view ==>
            VladHash(lib, v) in entries && entries[VladHash(lib, v)].State() == view[v] && view[v].log.vlad == v)
      && (forall h :: h in entries ==>
            entries[h].lib == lib && entries[h].log.vlad in view && h == VladHash(lib, entries[h].log.vlad))
    }

    constructor (lib: Library)
      ensures this.lib == lib && Valid() && entries == map[] && view == map[]
    {
      this.lib := lib;
      this.entries := map[];
      this.view := map[];
    }

    /** A VLAD is seen to be cached iff its slot is taken. */
    lemma SlotTaken(v: Vlad)
      requires HashLaw(lib) && Valid()
      ensures v in view <==> VladHash(lib, v) in entries
    {
    }

    /** A slot whose key is not the hash of its account's own VLAD puts the cache out of order. */
    lemma Misfiled(h: Bytes)
      requires h in entries && h != VladHash(lib, entries[h].log.vlad)
      ensures !Valid()
    {
    }

    method InsertByHash(key: Bytes, account: PlogAccount)
      requires HashLaw(lib) && Valid() && account.lib == lib
      modifies this
      ensures entries == old(entries)[key := account]
      ensures view == old(view)[account.log.vlad := account.State()]
      ensures key == VladHash(lib, account.log.vlad) ==> Valid()
    {
      forall w | w in view && w != account.log.vlad ensures VladHash(lib, w) != VladHash(lib, account.log.vlad) {
        NoCollision(lib, w, account.log.vlad);
      }
      entries := entries[key := account];
      view := view[account.log.vlad := account.State()];
    }

    /** Files the account under `vlad`; the cache stays in order exactly when that is the account's own VLAD. */
    method Insert(vlad: string, account: PlogAccount) returns (r: Result<(), Error>)
      requires HashLaw(lib) && Valid() && account.lib == lib
      modifies this
      ensures r == (if lib.decodeVlad(vlad).None? then Failure(Encoding) else Success(()))
      ensures r.Failure? ==> Valid() && entries == old(entries) && view == old(view)
      ensures r.Success? ==> entries == old(entries)[VladHash(lib, lib.decodeVlad(vlad).value) := account]
      ensures r.Success? ==> (Valid() <==> lib.decodeVlad(vlad).value == account.log.vlad)
      ensures r.Success? ==> view == old(view)[account.log.vlad := account.State()]
    {
      var key :- KeyFromMultibase(lib, vlad);
      InsertByHash(key, account);
      if lib.decodeVlad(vlad).value != account.log.vlad {
        NoCollision(lib, lib.decodeVlad(vlad).value, account.log.vlad);
        Misfiled(key);
      }
      r := Success(());
    }

    method Get(vlad: string) returns (r: Result<PlogAccount, Error>)
      requires HashLaw(lib) && Valid()
      ensures var found := Lookup(lib, view, vlad);
        if found.Failure? then r == Failure(found.error)
        else VladHash(lib, found.value) in entries && r == Success(entries[VladHash(lib, found.value)])
    {
      var key :- KeyFromMultibase(lib, vlad);
      SlotTaken(lib.decodeVlad(vlad).value);
      if key !in entries {
        return Failure(AccountNotCached(HashHexShort(key)));
      }
      r := Success(entries[key]);
    }

    method Remove(vlad: string) returns (r: Result<(), Error>)
      requires HashLaw(lib) && Valid()
      modifies this
      ensures Valid()
      ensures var found := Lookup(lib, old(view), vlad);
        if found.Failure? then r == Failure(found.error) && entries == old(entries) && view == old(view)
        else r == Success(()) && entries == old(entries) - {VladHash(lib, found.value)}
             && view == old(view) - {found.value}
    {
      hide HashLaw;
      var key :- KeyFromMultibase(lib, vlad);
      ghost var v := lib.decodeVlad(vlad).value;
      SlotTaken(v);
      if key !in entries {
        return Failure(AccountNotCached(HashHexShort(key)));
      }
      forall w | w in view && w != v ensures VladHash(lib, w) != key {
        NoCollision(lib, w, v);
      }
      entries := entries - {key};
      view := view - {v};
      r := Success(());
    }

    method Clear() returns (n: nat)
      requires HashLaw(lib) && Valid()
      modifies this
      ensures Valid() && entries == map[] && view == map[]
      ensures n == |old(view)|
    {
      ViewSize();
      n := |entries|;
      entries := map[];
      view := map[];
    }

    /** No account object sits in two slots, so an account changed in place changes one slot only. */
    lemma OneSlotEach(h: Bytes, g: Bytes)
      requires Valid() && h in entries && g in entries && h != g
      ensures entries[h] != entries[g]
    {
    }

    /** `Valid` except that the account of `v` may have changed since it was last looked at. */
    ghost predicate ValidBut(v: Vlad)
      reads this, entries.Values
    {
      && v in view && VladHash(lib, v) in entries
      && (forall w :: w in view && w != v ==>
            VladHash(lib, w) in entries && entries[VladHash(lib, w)].State() == view[w] && view[w].log.vlad == w)
      && (forall h :: h in entries ==>
            entries[h].lib == lib && entries[h].log.vlad in view && h == VladHash(lib, entries[h].log.vlad))
    }

    /** Look again at the account of `v` after it was changed in place. */
    ghost method Refresh(v: Vlad)
      requires HashLaw(lib) && ValidBut(v)
      modifies this`view
      ensures Valid() && view == old(view)[v := entries[VladHash(lib, v)].State()]
    {
      NoCollision(lib, entries[VladHash(lib, v)].log.vlad, v);
      view := view[v := entries[VladHash(lib, v)].State()];
    }

    /** As many accounts are seen as there are slots. */
    lemma ViewSize()
      requires HashLaw(lib) && Valid()
      ensures |view| == |entries|
    {
      var image := set v | v in view.Keys :: VladHash(lib, v);
      forall h | h in entries ensures h in image {
        assert entries[h].log.vlad in view.Keys;
      }
      assert entries.Keys == image;
      ImageSize(lib, view.Keys);
      assert |view| == |view.Keys| && |entries| == |entries.Keys|;
    }
  }

  lemma {:induction false} ImageSize(lib: Library, vlads: set<Vlad>)
    requires HashLaw(lib)
    ensures |set v | v in vlads :: VladHash(lib, v)| == |vlads|
  {
    var image := set v | v in vlads :: VladHash(lib, v);
    if vlads != {} {
      var x :| x in vlads;
      var rest := set v | v in vlads - {x} :: VladHash(lib, v);
      ImageSize(lib, vlads - {x});
      assert VladHash(lib, x) !in rest;
      assert image == rest + {VladHash(lib, x)};
    } else {
      assert image == {};
    }
  }
}
