/** Weighted-threshold authorities over keys and other accounts, and the recursive check with its memo of
    approved accounts. */
module Authorities {
  import opened Common

  type Key = nat

  const TWO_32: nat := 0x1_0000_0000

  datatype Authority = Authority(threshold: nat, keys: seq<(Key, nat)>, accounts: seq<(Name, nat)>)

  /** What the first n entries weigh, counting those in the given set. */
  function KeyWeight(keys: seq<(Key, nat)>, n: nat, usable: set<Key>): nat
    requires n <= |keys|
  {
    if n == 0 then 0 else KeyWeight(keys, n - 1, usable) + if keys[n - 1].0 in usable then keys[n - 1].1 else 0
  }

  function AccountWeight(accounts: seq<(Name, nat)>, n: nat, approving: set<Name>): nat
    requires n <= |accounts|
  {
    if n == 0 then 0
    else AccountWeight(accounts, n - 1, approving) + if accounts[n - 1].0 in approving then accounts[n - 1].1 else 0
  }

  /** The whole weight fits in 32 bits; 16-bit weights and the membership limit keep it far below. */
  ghost predicate Light(auth: Authority) {
    KeyWeight(auth.keys, |auth.keys|, KeysOf(auth)) + AccountWeight(auth.accounts, |auth.accounts|, NamesOf(auth)) <
        TWO_32
  }

  ghost function KeysOf(auth: Authority): set<Key> {
    set i | 0 <= i < |auth.keys| :: auth.keys[i].0
  }

  ghost function NamesOf(auth: Authority): set<Name> {
    set i | 0 <= i < |auth.accounts| :: auth.accounts[i].0
  }

  // ----- the meaning -----

  /** The authority is met by the usable keys and by accounts that are approved outright or, with d levels left,
      whose own active authority is met with one level less. */
  ghost predicate Derivable(active: Name -> Authority, usable: set<Key>, approved: set<Name>, auth: Authority, d: nat)
    decreases d, 2
  {
    KeyWeight(auth.keys, |auth.keys|, usable)
      + AccountWeight(auth.accounts, |auth.accounts|, Approving(active, usable, approved, auth, d)) >= auth.threshold
  }

  ghost function Approving(active: Name -> Authority, usable: set<Key>, approved: set<Name>, auth: Authority,
                           d: nat): set<Name>
    decreases d, 1
  {
    set i | 0 <= i < |auth.accounts| && Approves(active, usable, approved, auth.accounts[i].0, d) :: auth.accounts[i].0
  }

  ghost predicate Approves(active: Name -> Authority, usable: set<Key>, approved: set<Name>, a: Name, d: nat)
    decreases d, 0
  {
    a in approved || (d > 0 && Derivable(active, usable, approved, active(a), d - 1))
  }

  /** Derivable at some depth. */
  ghost predicate Met(active: Name -> Authority, usable: set<Key>, approved: set<Name>, auth: Authority) {
    exists d: nat :: Derivable(active, usable, approved, auth, d)
  }

  // ----- monotonicity -----

  lemma {:induction false} KeysMonotone(keys: seq<(Key, nat)>, n: nat, a: set<Key>, b: set<Key>)
    requires n <= |keys| && forall i :: 0 <= i < n && keys[i].0 in a ==> keys[i].0 in b
    ensures KeyWeight(keys, n, a) <= KeyWeight(keys, n, b)
  {
    if n > 0 {
      KeysMonotone(keys, n - 1, a, b);
    }
  }

  lemma {:induction false} AccountsMonotone(accounts: seq<(Name, nat)>, n: nat, a: set<Name>, b: set<Name>)
    requires n <= |accounts| && forall i :: 0 <= i < n && accounts[i].0 in a ==> accounts[i].0 in b
    ensures AccountWeight(accounts, n, a) <= AccountWeight(accounts, n, b)
  {
    if n > 0 {
      AccountsMonotone(accounts, n - 1, a, b);
    }
  }

  /** An authority that nothing meets. */
  const NEVER := Authority(1, [], [])

  /** The rules with every account outside `allowed` left without authority. */
  function Only(active: Name -> Authority, allowed: set<Name>): Name -> Authority {
    n => if n in allowed then active(n) else NEVER
  }

  /** The rules differ only where the first ones give no authority. */
  ghost predicate Looser(active: Name -> Authority, active': Name -> Authority) {
    forall n {:trigger active(n)} {:trigger active'(n)} :: active(n) == active'(n) || active(n) == NEVER
  }

  /** More keys, more approvals, more depth or more accounts with authority never make an authority fail. */
  lemma {:induction false} DerivableMonotone(active: Name -> Authority, usable: set<Key>, approved: set<Name>,
                                             auth: Authority, d: nat, active': Name -> Authority, usable': set<Key>,
                                             approved': set<Name>, d': nat)
    requires Derivable(active, usable, approved, auth, d)
    requires Looser(active, active') && usable <= usable' && approved <= approved' && d <= d'
    ensures Derivable(active', usable', approved', auth, d')
    decreases d, 1
  {
    KeysMonotone(auth.keys, |auth.keys|, usable, usable');
    var a, b := Approving(active, usable, approved, auth, d), Approving(active', usable', approved', auth, d');
    forall i | 0 <= i < |auth.accounts| && auth.accounts[i].0 in a ensures auth.accounts[i].0 in b {
      ApprovesMonotone(active, usable, approved, auth.accounts[i].0, d, active', usable', approved', d');
    }
    AccountsMonotone(auth.accounts, |auth.accounts|, a, b);
  }

  lemma {:induction false} ApprovesMonotone(active: Name -> Authority, usable: set<Key>, approved: set<Name>, a: Name,
                                            d: nat, active': Name -> Authority, usable': set<Key>, approved': set<Name>,
                                            d': nat)
    requires Approves(active, usable, approved, a, d)
    requires Looser(active, active') && usable <= usable' && approved <= approved' && d <= d'
    ensures Approves(active', usable', approved', a, d')
    decreases d, 0
  {
    if a !in approved {
      assert active(a) == active'(a) || active(a) == NEVER;
      DerivableMonotone(active, usable, approved, active(a), d - 1, active', usable', approved', d' - 1);
    }
  }

  /** Approvals that are themselves derivable within `extra` levels may be left out. */
  lemma {:induction false} Cut(active: Name -> Authority, usable: set<Key>, approved: set<Name>, approved': set<Name>,
                               auth: Authority, d: nat, extra: nat)
    requires Derivable(active, usable, approved', auth, d)
    requires forall n :: n in approved' ==> Approves(active, usable, approved, n, extra)
    ensures Derivable(active, usable, approved, auth, d + extra)
    decreases d, 1
  {
    var a, b := Approving(active, usable, approved', auth, d), Approving(active, usable, approved, auth, d + extra);
    forall i | 0 <= i < |auth.accounts| && auth.accounts[i].0 in a ensures auth.accounts[i].0 in b {
      CutApproves(active, usable, approved, approved', auth.accounts[i].0, d, extra);
    }
    AccountsMonotone(auth.accounts, |auth.accounts|, a, b);
  }

  lemma {:induction false} CutApproves(active: Name -> Authority, usable: set<Key>, approved: set<Name>,
                                       approved': set<Name>, n: Name, d: nat, extra: nat)
    requires Approves(active, usable, approved', n, d)
    requires forall m :: m in approved' ==> Approves(active, usable, approved, m, extra)
    ensures Approves(active, usable, approved, n, d + extra)
    decreases d, 0
  {
    if n in approved' {
      ApprovesMonotone(active, usable, approved, n, extra, active, usable, approved, d + extra);
    } else {
      Cut(active, usable, approved, approved', active(n), d - 1, extra);
    }
  }

  lemma {:induction false} CommonDepth(active: Name -> Authority, usable: set<Key>, approved: set<Name>,
                                       approved': set<Name>) returns (d: nat)
    requires forall n :: n in approved' ==> n in approved || Met(active, usable, approved, active(n))
    ensures forall n :: n in approved' ==> Approves(active, usable, approved, n, d)
    decreases approved'
  {
    hide Derivable;
    d := 0;
    if approved' != {} {
      var n :| n in approved';
      var e := CommonDepth(active, usable, approved, approved' - {n});
      d := Justified(active, usable, approved, n, e);
      forall m | m in approved' ensures Approves(active, usable, approved, m, d) {
        if m != n {
          ApprovesMonotone(active, usable, approved, m, e, active, usable, approved, d);
        }
      }
    }
  }

  /** An approved account approves at some depth at or above d. */
  lemma Justified(active: Name -> Authority, usable: set<Key>, approved: set<Name>, a: Name, d: nat) returns (d': nat)
    requires a in approved || Met(active, usable, approved, active(a))
    ensures d <= d' && Approves(active, usable, approved, a, d')
  {
    if a in approved {
      d' := d;
    } else {
      var e: nat :| Derivable(active, usable, approved, active(a), e);
      d' := if e + 1 > d then e + 1 else d;
      DerivableMonotone(active, usable, approved, active(a), e, active, usable, approved, d' - 1);
    }
  }

  lemma MetMonotone(active: Name -> Authority, usable: set<Key>, approved: set<Name>, auth: Authority,
                    active': Name -> Authority, usable': set<Key>)
    requires Met(active, usable, approved, auth) && Looser(active, active') && usable <= usable'
    ensures Met(active', usable', approved, auth)
  {
    var d: nat :| Derivable(active, usable, approved, auth, d);
    DerivableMonotone(active, usable, approved, auth, d, active', usable', approved, d);
  }

  /** Whatever is met with derivable approvals is met without them. */
  lemma MetWithout(active: Name -> Authority, usable: set<Key>, approved: set<Name>, approved': set<Name>,
                   auth: Authority)
    requires Met(active, usable, approved', auth)
    requires forall n :: n in approved' ==> n in approved || Met(active, usable, approved, active(n))
    ensures Met(active, usable, approved, auth)
  {
    hide Derivable;
    var d: nat :| Derivable(active, usable, approved', auth, d);
    var extra := CommonDepth(active, usable, approved, approved');
    Cut(active, usable, approved, approved', auth, d, extra);
  }

  // ----- what a check may remember -----

  /** The accounts within `left` hops of an authority. */
  ghost function Near(active: Name -> Authority, auth: Authority, left: nat): set<Name>
    decreases left, 1
  {
    set i, n | 0 <= i < |auth.accounts| && n in Hop(active, auth.accounts[i].0, left) :: n
  }

  ghost function Hop(active: Name -> Authority, a: Name, left: nat): set<Name>
    decreases left, 0
  {
    if left == 0 then {} else {a} + Near(active, active(a), left - 1)
  }

  /** Approvals have only been added for accounts in `allowed`, each justified by the marked keys, the approvals before,
      and accounts in `allowed`. */
  ghost predicate Grown(active: Name -> Authority, allowed: set<Name>, marked: set<Key>, approved: set<Name>,
                        approved': set<Name>) {
    && approved <= approved'
    && forall n {:trigger n in approved'} :: n in approved' && n !in approved ==>
         n in allowed && Met(Only(active, allowed), marked, approved, active(n))
  }

  lemma GrownMore(active: Name -> Authority, allowed: set<Name>, allowed': set<Name>, marked: set<Key>,
                  marked': set<Key>, approved: set<Name>, approved': set<Name>)
    requires Grown(active, allowed, marked, approved, approved') && allowed <= allowed' && marked <= marked'
    ensures Grown(active, allowed', marked', approved, approved')
  {
    hide Derivable, Met;
    forall n | n in approved' && n !in approved ensures Met(Only(active, allowed'), marked', approved, active(n)) {
      MetMonotone(Only(active, allowed), marked, approved, active(n), Only(active, allowed'), marked');
    }
  }

  /** Two stretches make one. */
  lemma GrownTwice(active: Name -> Authority, allowed: set<Name>, marked: set<Key>, s: set<Name>, t: set<Name>,
                   r: set<Name>)
    requires Grown(active, allowed, marked, s, t) && Grown(active, allowed, marked, t, r)
    ensures Grown(active, allowed, marked, s, r)
  {
    hide Derivable, Met;
    forall n | n in r && n !in s ensures n in allowed && Met(Only(active, allowed), marked, s, active(n)) {
      if n !in t {
        MetBefore(active, allowed, marked, s, t, active(n));
      }
    }
  }

  /** What is met with approvals that were added is met with those before. */
  lemma MetBefore(active: Name -> Authority, allowed: set<Name>, marked: set<Key>, s: set<Name>, t: set<Name>,
                  auth: Authority)
    requires Grown(active, allowed, marked, s, t) && Met(Only(active, allowed), marked, t, auth)
    ensures Met(Only(active, allowed), marked, s, auth)
  {
    hide Derivable, Met;
    forall n | n in t ensures n in s || Met(Only(active, allowed), marked, s, Only(active, allowed)(n)) {
    }
    MetWithout(Only(active, allowed), marked, s, t, auth);
  }

  // ----- the running total between its bounds -----

  /** What is fixed during one check: the rules, the keys and approvals it starts from, the accounts it may come to, and
      the levels left. */
  datatype Frame = Frame(active: Name -> Authority, usable: set<Key>, approved: set<Name>, allowed: set<Name>,
                         left: nat) {
    function Rules(): Name -> Authority {
      Only(active, allowed)
    }
  }

  /** After n accounts the total is at least what completeness asks for, and at most what the marked keys and the
      accounts remembered, or derivable at depth d, justify. */
  ghost predicate Standing(f: Frame, auth: Authority, n: nat, total: nat, marked: set<Key>, memo: set<Name>, d: nat)
    requires n <= |auth.accounts|
  {
    && total <= KeyWeight(auth.keys, |auth.keys|, KeysOf(auth)) + AccountWeight(auth.accounts, n, NamesOf(auth))
    && total <= KeyWeight(auth.keys, |auth.keys|, marked) + AccountWeight(auth.accounts, n, memo)
    && total <= KeyWeight(auth.keys, |auth.keys|, marked)
                  + AccountWeight(auth.accounts, n, Approving(f.Rules(), marked, f.approved, auth, d))
    && total >= KeyWeight(auth.keys, |auth.keys|, f.usable)
                  + AccountWeight(auth.accounts, n, Approving(f.active, f.usable, f.approved, auth, f.left))
  }

  lemma ApprovingGrows(active: Name -> Authority, marked: set<Key>, marked': set<Key>, approved: set<Name>,
                       auth: Authority, n: nat, d: nat, d': nat)
    requires marked <= marked' && d <= d' && n <= |auth.accounts|
    ensures KeyWeight(auth.keys, |auth.keys|, marked) <= KeyWeight(auth.keys, |auth.keys|, marked')
    ensures AccountWeight(auth.accounts, n, Approving(active, marked, approved, auth, d))
            <= AccountWeight(auth.accounts, n, Approving(active, marked', approved, auth, d'))
  {
    KeysMonotone(auth.keys, |auth.keys|, marked, marked');
    var a, b := Approving(active, marked, approved, auth, d), Approving(active, marked', approved, auth, d');
    forall i | 0 <= i < n && auth.accounts[i].0 in a ensures auth.accounts[i].0 in b {
      ApprovesMonotone(active, marked, approved, auth.accounts[i].0, d, active, marked', approved, d');
    }
    AccountsMonotone(auth.accounts, n, a, b);
  }

  /** An account that approves is counted. */
  lemma Counted(f: Frame, auth: Authority, n: nat, total: nat, marked: set<Key>, memo: set<Name>, d: nat,
                marked': set<Key>, memo': set<Name>, d': nat)
    requires n < |auth.accounts| && Standing(f, auth, n, total, marked, memo, d) && marked <= marked' && memo <= memo'
    requires d <= d'
    requires Approves(f.Rules(), marked', f.approved, auth.accounts[n].0, d') && auth.accounts[n].0 in memo'
    ensures Standing(f, auth, n + 1, total + auth.accounts[n].1, marked', memo', d')
  {
    ApprovingGrows(f.Rules(), marked, marked', f.approved, auth, n, d, d');
    AccountsMonotone(auth.accounts, n, memo, memo');
    assert auth.accounts[n].0 in NamesOf(auth);
  }

  /** An account may be left out if it does not approve even with everything usable. */
  lemma Skipped(f: Frame, auth: Authority, n: nat, total: nat, marked: set<Key>, memo: set<Name>, d: nat,
                marked': set<Key>, memo': set<Name>)
    requires n < |auth.accounts| && Standing(f, auth, n, total, marked, memo, d) && marked <= marked' && memo <= memo'
    requires !Approves(f.active, f.usable, f.approved, auth.accounts[n].0, f.left)
    ensures Standing(f, auth, n + 1, total, marked', memo', d)
  {
    ApprovingGrows(f.Rules(), marked, marked', f.approved, auth, n, d, d);
    AccountsMonotone(auth.accounts, n, memo, memo');
    forall i | 0 <= i < |auth.accounts| && Approves(f.active, f.usable, f.approved, auth.accounts[i].0, f.left)
      ensures auth.accounts[i].0 != auth.accounts[n].0 {
    }
  }

  lemma {:induction false} AccountsAdd(accounts: seq<(Name, nat)>, m: nat, n: nat, s: set<Name>)
    requires m <= n <= |accounts|
    ensures AccountWeight(accounts, m, s) <= AccountWeight(accounts, n, s)
    decreases n
  {
    if m < n {
      AccountsAdd(accounts, m, n - 1, s);
    }
  }

  /** A total that reaches the threshold is justified, at whatever point it does. */
  lemma Reached(f: Frame, auth: Authority, n: nat, total: nat, marked: set<Key>, memo: set<Name>, d: nat)
    requires n <= |auth.accounts| && Standing(f, auth, n, total, marked, memo, d) && total >= auth.threshold
    ensures Met(f.Rules(), marked, f.approved, auth) && Derivable(f.active, marked, memo, auth, 0)
  {
    AccountsAdd(auth.accounts, n, |auth.accounts|, Approving(f.Rules(), marked, f.approved, auth, d));
    assert Derivable(f.Rules(), marked, f.approved, auth, d);
    AccountsAdd(auth.accounts, n, |auth.accounts|, memo);
    Remembered(f.active, marked, memo, auth);
  }

  /** Without levels left, remembered accounts count and no others. */
  lemma Remembered(active: Name -> Authority, usable: set<Key>, memo: set<Name>, auth: Authority)
    ensures Derivable(active, usable, memo, auth, 0) <==>
              KeyWeight(auth.keys, |auth.keys|, usable) + AccountWeight(auth.accounts, |auth.accounts|, memo) >=
                  auth.threshold
  {
    var s := Approving(active, usable, memo, auth, 0);
    forall i | 0 <= i < |auth.accounts| ensures auth.accounts[i].0 in s <==> auth.accounts[i].0 in memo {
      assert Approves(active, usable, memo, auth.accounts[i].0, 0) <==> auth.accounts[i].0 in memo;
    }
    AccountsMonotone(auth.accounts, |auth.accounts|, memo, s);
    AccountsMonotone(auth.accounts, |auth.accounts|, s, memo);
  }

  /** At the end the total decides. */
  lemma AllCounted(f: Frame, auth: Authority, total: nat, marked: set<Key>, memo: set<Name>, d: nat)
    requires Standing(f, auth, |auth.accounts|, total, marked, memo, d)
    ensures Derivable(f.active, f.usable, f.approved, auth, f.left) ==> total >= auth.threshold
    ensures total >= auth.threshold ==>
              Met(f.Rules(), marked, f.approved, auth) && Derivable(f.active, marked, memo, auth, 0)
  {
    if total >= auth.threshold {
      Reached(f, auth, |auth.accounts|, total, marked, memo, d);
    }
  }

  /** No more can be added than the authority weighs. */
  lemma Fits(f: Frame, auth: Authority, n: nat, total: nat, marked: set<Key>, memo: set<Name>, d: nat)
    requires Light(auth) && n <= |auth.accounts| && Standing(f, auth, n, total, marked, memo, d)
    ensures total < TWO_32
    ensures n < |auth.accounts| ==> total + auth.accounts[n].1 < TWO_32
  {
    AccountsAdd(auth.accounts, n, |auth.accounts|, NamesOf(auth));
    if n < |auth.accounts| {
      assert auth.accounts[n].0 in NamesOf(auth);
      AccountsAdd(auth.accounts, n + 1, |auth.accounts|, NamesOf(auth));
    }
  }

  // ----- the check -----

  /** sign_state */
  class SignState {
    const active: Name -> Authority
    const available: set<Key>
    const maxDepth: nat
    ghost const initial: set<Name>
    var provided: map<Key, bool>     // provided_signatures, marked when used
    var approved: map<Name, bool>    // approved_by

    constructor (signatures: set<Key>, active: Name -> Authority, keys: set<Key>, maxDepth: nat)
      requires forall a :: Light(active(a))
      ensures Valid() && Usable() == signatures + keys && initial == approved.Keys == {"temp"} && Marked() == {}
      ensures this.active == active && this.maxDepth == maxDepth
    {
      this.active, available, this.maxDepth, initial := active, keys, maxDepth, {"temp"};
      provided := map k | k in signatures :: false;
      approved := map["temp" := true];
    }

    ghost function Usable(): set<Key>
      reads this
    {
      provided.Keys + available
    }

    ghost function Marked(): set<Key>
      reads this
    {
      set k | k in provided && provided[k]
    }

    /** Every remembered approval was given at the start or is justified by the keys marked so far. */
    ghost predicate Valid()
      reads this
    {
      && (forall a :: Light(active(a)))
      && Marked() <= Usable()
      && initial <= approved.Keys
      && forall a {:trigger approved[a]} :: a in approved ==> a in initial || Met(active, Marked(), initial, active(a))
    }

    /** signed_by */
    method SignedBy(k: Key) returns (ok: bool)
      requires Valid()
      modifies this`provided
      ensures Valid() && (ok <==> k in old(Usable())) && Usable() == old(Usable())
      ensures Marked() == if ok then old(Marked()) + {k} else old(Marked())
    {
      if k !in provided {
        if k !in available {
          return false;
        }
      }
      provided := provided[k := true];
      ok := true;
      assert Marked() == old(Marked()) + {k};
      MoreMarked(active, old(Marked()), Marked(), initial, old(approved));
    }

    /** check_authority. Whatever is derivable within the levels left is accepted. Whatever is accepted is derivable, at
        some depth, from the marked keys and the approvals before, by accounts within the levels left alone; and so is
        every approval that is remembered on the way. Hence it is derivable from the initial approvals. */
    method CheckAuthority(auth: Authority, depth: nat) returns (ok: bool)
      requires Valid() && Light(auth) && depth <= maxDepth
      modifies this`provided, this`approved
      ensures Valid() && Usable() == old(Usable()) && old(Marked()) <= Marked() && old(approved).Keys <= approved.Keys
      ensures Derivable(active, old(Usable()), old(approved).Keys, auth, maxDepth - depth) ==> ok
      ensures var near := Near(active, auth, maxDepth - depth);
              && Grown(active, near, Marked(), old(approved).Keys, approved.Keys)
              && (ok ==> Met(Only(active, near), Marked(), old(approved).Keys, auth))
      ensures ok ==> Derivable(active, Marked(), approved.Keys, auth, 0) && Met(active, Marked(), initial, auth)
      decreases maxDepth - depth, 1
    {
      hide Standing, Light, Derivable, Approves, Met, Grown, Near, Only;
      ghost var f := Frame(active, Usable(), approved.Keys, Near(active, auth, maxDepth - depth), maxDepth - depth);
      var total: nat, enough: bool;
      total, enough := CheckKeys(auth, f);
      NothingGrown(active, f.allowed, Marked(), approved.Keys);
      if enough {
        StillMet(f, Marked(), approved.Keys, initial, auth);
        return true;
      }
      ghost var d: nat := 0;
      for n := 0 to |auth.accounts|
        invariant Valid() && Usable() == old(Usable()) && old(Marked()) <= Marked() && f.approved <= approved.Keys
        invariant Grown(active, f.allowed, Marked(), f.approved, approved.Keys)
        invariant Standing(f, auth, n, total, Marked(), approved.Keys, d)
      {
        var (a, weight) := auth.accounts[n];
        ghost var marked, before := Marked(), approved.Keys;
        Fits(f, auth, n, total, marked, before, d);
        var approves := CheckAccount(a, depth);
        GrowsOn(f, auth, n, marked, before, Marked(), approved.Keys);
        if approves {
          ghost var d' := JustifiedWithin(f, Marked(), approved.Keys, a, d);
          Counted(f, auth, n, total, marked, before, d, Marked(), approved.Keys, d');
          d := d';
          total := (total + weight) % TWO_32;
          if total >= auth.threshold {
            Reached(f, auth, n + 1, total, Marked(), approved.Keys, d);
            StillMet(f, Marked(), approved.Keys, initial, auth);
            return true;
          }
        } else {
          NotApproving(f, a, before);
          Skipped(f, auth, n, total, marked, before, d, Marked(), approved.Keys);
        }
      }
      AllCounted(f, auth, total, Marked(), approved.Keys, d);
      ok := total >= auth.threshold;
      if ok {
        StillMet(f, Marked(), approved.Keys, initial, auth);
      }
    }

    /** check_authority of an account name. */
    method CheckAccountName(id: Name) returns (ok: bool)
      requires Valid()
      modifies this`provided, this`approved
      ensures Valid() && Usable() == old(Usable()) && old(Marked()) <= Marked() && old(approved).Keys <= approved.Keys
      ensures id in old(approved) || Derivable(active, old(Usable()), old(approved).Keys, active(id), maxDepth) ==> ok
      ensures ok ==> id in initial || Met(active, Marked(), initial, active(id))
      ensures var near := Near(active, active(id), maxDepth);
              && Grown(active, near, Marked(), old(approved).Keys, approved.Keys)
              && (ok && id !in old(approved) ==> Met(Only(active, near), Marked(), old(approved).Keys, active(id)))
    {
      hide Derivable, Met, Near, Only, Grown;
      NothingGrown(active, Near(active, active(id), maxDepth), Marked(), approved.Keys);
      if id in approved {
        assert approved[id := true].Keys == approved.Keys;
        assert approved[id] == approved[id];
        approved := approved[id := true];
        return true;
      }
      ok := CheckAuthority(active(id), 0);
    }

    /** remove_unused_signatures: what was accepted is still derivable from the signatures that are left. */
    method RemoveUnused(ghost accepted: set<Authority>) returns (any: bool)
      requires Valid() && forall auth :: auth in accepted ==> Met(active, Marked(), initial, auth)
      modifies this`provided
      ensures Valid() && provided.Keys == old(Marked()) == Marked() && approved == old(approved)
      ensures any <==> Unmarked(old(provided)) != {}
      ensures forall auth :: auth in accepted ==> Met(active, provided.Keys, initial, auth)
    {
      var unused := Unmarked(provided);
      any := unused != {};
      assert any ==> exists k :: k in unused;
      while unused != {}
        invariant unused == Unmarked(provided) && Marked() == old(Marked())
        decreases |unused|
      {
        var k :| k in unused;
        provided := provided - {k};
        unused := unused - {k};
      }
      assert forall k :: k in provided ==> k !in Unmarked(provided);
      assert provided.Keys == Marked();
    }

    /** One account of an authority: remembered, or checked if there is a level left. */
    method CheckAccount(a: Name, depth: nat) returns (ok: bool)
      requires Valid() && depth <= maxDepth
      modifies this`provided, this`approved
      ensures Valid() && Usable() == old(Usable()) && old(Marked()) <= Marked() && old(approved).Keys <= approved.Keys
      ensures Grown(active, Hop(active, a, maxDepth - depth), Marked(), old(approved).Keys, approved.Keys)
      ensures Approves(active, old(Usable()), old(approved).Keys, a, maxDepth - depth) ==> ok
      ensures ok ==> a in approved
      decreases maxDepth - depth, 0
    {
      hide Derivable, Light, Met, Grown, Near, Only;
      NothingGrown(active, Hop(active, a, maxDepth - depth), Marked(), approved.Keys);
      if a !in approved {
        if depth == maxDepth {
          return false;
        }
        ghost var near := Near(active, active(a), maxDepth - depth - 1);
        var checked := CheckAuthority(active(a), depth + 1);
        GrownMore(active, near, near + {a}, Marked(), Marked(), old(approved).Keys, approved.Keys);
        assert near + {a} == Hop(active, a, maxDepth - depth);
        if !checked {
          return false;
        }
        OneMoreGrown(active, near, Marked(), old(approved).Keys, approved.Keys, a);
        assert approved[a := true].Keys == approved.Keys + {a};
        approved := approved[a := true];
      }
      ok := true;
    }

    /** The loop over the keys. */
    method CheckKeys(auth: Authority, ghost f: Frame) returns (total: nat, enough: bool)
      requires Valid() && Light(auth) && f == Frame(active, Usable(), approved.Keys, f.allowed, f.left)
      modifies this`provided
      ensures Valid() && Usable() == old(Usable()) && old(Marked()) <= Marked()
      ensures if enough then
                Met(f.Rules(), Marked(), f.approved, auth) && Derivable(active, Marked(), f.approved, auth, 0)
              else Standing(f, auth, 0, total, Marked(), f.approved, 0)
    {
      total := 0;
      for n := 0 to |auth.keys|
        invariant Valid() && Usable() == old(Usable()) && old(Marked()) <= Marked()
        invariant total == KeyWeight(auth.keys, n, Usable()) <= KeyWeight(auth.keys, n, Marked())
      {
        var (k, weight) := auth.keys[n];
        ghost var marked := Marked();
        var signed := SignedBy(k);
        KeysMonotone(auth.keys, n, marked, Marked());
        if signed {
          KeyFits(auth, n, total, Usable());
          total := (total + weight) % TWO_32;
          if total >= auth.threshold {
            KeysSuffice(f.Rules(), Marked(), f.approved, auth, n + 1);
            KeysSuffice(active, Marked(), f.approved, auth, n + 1);
            return total, true;
          }
        }
      }
      KeysInKeysOf(auth, |auth.keys|, Usable());
      enough := false;
    }
  }

  function Unmarked(provided: map<Key, bool>): set<Key> {
    set k | k in provided && !provided[k]
  }

  /** Approvals stay justified when more keys are marked. */
  lemma MoreMarked(active: Name -> Authority, marked: set<Key>, marked': set<Key>, initial: set<Name>,
                   approved: map<Name, bool>)
    requires marked <= marked'
    requires forall a {:trigger approved[a]} :: a in approved ==>
               a in initial || Met(active, marked, initial, active(a))
    ensures forall a {:trigger approved[a]} :: a in approved ==>
              a in initial || Met(active, marked', initial, active(a))
  {
    forall a | a in approved && a !in initial ensures Met(active, marked', initial, active(a)) {
      assert approved[a] == approved[a];
      var d: nat :| Derivable(active, marked, initial, active(a), d);
      DerivableMonotone(active, marked, initial, active(a), d, active, marked', initial, d);
    }
  }

  lemma NothingGrown(active: Name -> Authority, allowed: set<Name>, marked: set<Key>, approved: set<Name>)
    ensures Grown(active, allowed, marked, approved, approved)
  {
  }

  /** The account itself is remembered once its authority is met. */
  lemma OneMoreGrown(active: Name -> Authority, near: set<Name>, marked: set<Key>, approved: set<Name>,
                     approved': set<Name>, a: Name)
    requires Grown(active, near, marked, approved, approved') && Met(Only(active, near), marked, approved, active(a))
    ensures Grown(active, near + {a}, marked, approved, approved' + {a})
  {
    hide Met, Only;
    GrownMore(active, near, near + {a}, marked, marked, approved, approved');
    OnlyLooser(active, near, near + {a});
    MetMonotone(Only(active, near), marked, approved, active(a), Only(active, near + {a}), marked);
  }

  lemma OnlyLooser(active: Name -> Authority, allowed: set<Name>, allowed': set<Name>)
    requires allowed <= allowed'
    ensures Looser(Only(active, allowed), Only(active, allowed')) && Looser(Only(active, allowed), active)
  {
  }

  /** The approvals of one more account. */
  lemma GrowsOn(f: Frame, auth: Authority, n: nat, marked: set<Key>, before: set<Name>, marked': set<Key>,
                after: set<Name>)
    requires n < |auth.accounts| && f.allowed == Near(f.active, auth, f.left) && marked <= marked'
    requires Grown(f.active, f.allowed, marked, f.approved, before)
    requires Grown(f.active, Hop(f.active, auth.accounts[n].0, f.left), marked', before, after)
    ensures Grown(f.active, f.allowed, marked', f.approved, after)
  {
    hide Grown, Hop;
    var hop := Hop(f.active, auth.accounts[n].0, f.left);
    assert forall m :: m in hop ==> m in f.allowed;
    GrownMore(f.active, hop, f.allowed, marked', marked', before, after);
    GrownMore(f.active, f.allowed, f.allowed, marked, marked', f.approved, before);
    GrownTwice(f.active, f.allowed, marked', f.approved, before, after);
  }

  lemma JustifiedWithin(f: Frame, marked: set<Key>, memo: set<Name>, a: Name, d: nat) returns (d': nat)
    requires Grown(f.active, f.allowed, marked, f.approved, memo) && a in memo
    ensures d <= d' && Approves(f.Rules(), marked, f.approved, a, d')
  {
    hide Met, Approves;
    d' := Justified(f.Rules(), marked, f.approved, a, d);
  }

  lemma StillMet(f: Frame, marked: set<Key>, memo: set<Name>, initial: set<Name>, auth: Authority)
    requires Met(f.Rules(), marked, f.approved, auth) && f.approved <= memo
    requires forall a :: a in memo ==> a in initial || Met(f.active, marked, initial, f.active(a))
    ensures Met(f.active, marked, initial, auth)
  {
    hide Met, Only;
    OnlyLooser(f.active, f.allowed, f.allowed);
    MetMonotone(f.Rules(), marked, f.approved, auth, f.active, marked);
    MetWithout(f.active, marked, initial, f.approved, auth);
  }

  /** What does not approve with more approvals does not approve with fewer. */
  lemma NotApproving(f: Frame, a: Name, approved: set<Name>)
    requires f.approved <= approved && !Approves(f.active, f.usable, approved, a, f.left)
    ensures !Approves(f.active, f.usable, f.approved, a, f.left)
  {
    if Approves(f.active, f.usable, f.approved, a, f.left) {
      ApprovesMonotone(f.active, f.usable, f.approved, a, f.left, f.active, f.usable, approved, f.left);
    }
  }

  lemma {:induction false} KeysInKeysOf(auth: Authority, n: nat, usable: set<Key>)
    requires n <= |auth.keys|
    ensures KeyWeight(auth.keys, n, usable) <= KeyWeight(auth.keys, n, KeysOf(auth))
  {
    if n > 0 {
      KeysInKeysOf(auth, n - 1, usable);
      assert auth.keys[n - 1].0 in KeysOf(auth);
    }
  }

  lemma {:induction false} KeysAdd(keys: seq<(Key, nat)>, m: nat, n: nat, s: set<Key>)
    requires m <= n <= |keys|
    ensures KeyWeight(keys, m, s) <= KeyWeight(keys, n, s)
    decreases n
  {
    if m < n {
      KeysAdd(keys, m, n - 1, s);
    }
  }

  lemma KeyFits(auth: Authority, n: nat, total: nat, usable: set<Key>)
    requires Light(auth) && n < |auth.keys| && total == KeyWeight(auth.keys, n, usable)
    ensures total + auth.keys[n].1 < TWO_32
  {
    KeysInKeysOf(auth, n, usable);
    assert auth.keys[n].0 in KeysOf(auth);
    KeysAdd(auth.keys, n + 1, |auth.keys|, KeysOf(auth));
  }

  lemma KeysSuffice(active: Name -> Authority, marked: set<Key>, initial: set<Name>, auth: Authority, n: nat)
    requires n <= |auth.keys| && KeyWeight(auth.keys, n, marked) >= auth.threshold
    ensures Met(active, marked, initial, auth) && Derivable(active, marked, initial, auth, 0)
  {
    KeysAdd(auth.keys, n, |auth.keys|, marked);
    assert Derivable(active, marked, initial, auth, 0);
  }

  // ----- why the bounds differ -----

  /** a defers to b, b to c, c to d, and d to key 7. */
  function Deferring(n: Name): Authority {
    if n == "a" then Authority(1, [], [("b", 1)])
    else if n == "b" then Authority(1, [], [("c", 1)])
    else if n == "c" then Authority(1, [], [("d", 1)])
    else Authority(1, [(7, 1)], [])
  }

  /** With two levels a is refused, b is accepted, and then a is accepted, because c is remembered from checking b. */
  method MemoAcceptsMore() returns (first: bool, second: bool, third: bool)
    ensures !first && second && third
  {
    hide Light, Derivable, Near, Only, Met, Grown;
    AllLight();
    var state := new SignState({7}, Deferring, {}, 2);
    assert state.Usable() == {7};
    FromA();
    first := state.CheckAuthority(Deferring("a"), 0);
    FromB(state.approved.Keys);
    second := state.CheckAuthority(Deferring("b"), 0);
    CRemembered(state.Marked(), state.approved.Keys);
    third := state.CheckAuthority(Deferring("a"), 0);
  }

  lemma AllLight()
    ensures forall n :: Light(Deferring(n))
  {
    forall n ensures Light(Deferring(n)) {
      var auth := Deferring(n);
      assert KeyWeight([], 0, KeysOf(auth)) == 0 && KeyWeight([(7, 1)], 0, KeysOf(auth)) == 0;
    }
  }

  lemma OneAccount(active: Name -> Authority, usable: set<Key>, approved: set<Name>, auth: Authority, next: Name,
                   d: nat)
    requires auth == Authority(1, [], [(next, 1)])
    ensures Derivable(active, usable, approved, auth, d) <==> Approves(active, usable, approved, next, d)
  {
    var s := Approving(active, usable, approved, auth, d);
    assert auth.accounts[0].0 == next;
    assert AccountWeight([(next, 1)], 0, s) == 0;
    assert next in s <==> Approves(active, usable, approved, next, d);
  }

  /** Nothing within two hops of a has a key. */
  lemma FromA()
    ensures forall marked :: !Met(Only(Deferring, Near(Deferring, Deferring("a"), 2)), marked, {"temp"}, Deferring("a"))
  {
    hide Derivable, Approves;
    var near := Near(Deferring, Deferring("a"), 2);
    NotNear();
    var rules := Only(Deferring, near);
    forall marked, d: nat ensures !Derivable(rules, marked, {"temp"}, Deferring("a"), d) {
      OneAccount(rules, marked, {"temp"}, Deferring("a"), "b", d);
      NoD(rules, marked, d);
    }
  }

  lemma NotNear()
    ensures "d" !in Near(Deferring, Deferring("a"), 2)
  {
    assert Near(Deferring, Deferring("c"), 0) == {};
    assert Hop(Deferring, "c", 1) == {"c"};
    assert Near(Deferring, Deferring("b"), 1) <= {"c"};
    assert Hop(Deferring, "b", 2) <= {"b", "c"};
  }

  /** Without d neither c nor b approves. */
  lemma NoD(rules: Name -> Authority, marked: set<Key>, d: nat)
    requires rules("d") == NEVER && (rules("c") == Deferring("c") || rules("c") == NEVER)
    requires rules("b") == Deferring("b") || rules("b") == NEVER
    ensures !Approves(rules, marked, {"temp"}, "b", d)
  {
    if d > 0 {
      NoneMeetsNever(rules, marked, d - 1);
      OneAccount(rules, marked, {"temp"}, Deferring("b"), "c", d - 1);
      if d > 1 {
        NoneMeetsNever(rules, marked, d - 2);
        OneAccount(rules, marked, {"temp"}, Deferring("c"), "d", d - 2);
        if d > 2 {
          NoneMeetsNever(rules, marked, d - 3);
        }
      }
    }
  }

  lemma NoneMeetsNever(rules: Name -> Authority, marked: set<Key>, d: nat)
    ensures !Derivable(rules, marked, {"temp"}, NEVER, d)
  {
  }

  lemma FromB(approved: set<Name>)
    ensures Derivable(Deferring, {7}, approved, Deferring("b"), 2)
  {
    assert Derivable(Deferring, {7}, approved, Deferring("d"), 0) by {
      assert KeyWeight([(7, 1)], 0, {7}) == 0;
    }
    OneAccount(Deferring, {7}, approved, Deferring("c"), "d", 1);
    OneAccount(Deferring, {7}, approved, Deferring("b"), "c", 2);
  }

  lemma CRemembered(marked: set<Key>, approved: set<Name>)
    requires Derivable(Deferring, marked, approved, Deferring("b"), 0)
    ensures "c" in approved && Derivable(Deferring, {7}, approved, Deferring("a"), 2)
  {
    OneAccount(Deferring, marked, approved, Deferring("b"), "c", 0);
    OneAccount(Deferring, {7}, approved, Deferring("b"), "c", 1);
    OneAccount(Deferring, {7}, approved, Deferring("a"), "b", 2);
  }
}
