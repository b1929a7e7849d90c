/** Delegated vesting shares: what every account has lent and borrowed, against the records of it. */
module DelegationBooks {
  import opened Common
  import opened MapSums

  datatype Account = Account(
    vests: int,
    delegated: int,      // delegated_vesting_shares
    received: int,       // received_vesting_shares
    withdrawing: int)    // to_withdraw - withdrawn

  datatype Delegation = Delegation(shares: int, minTime: int, interest: nat)

  /** STEEMIT_MAX_DELEGATED_VESTING_INTEREST_RATE, 80% */
  const MAX_INTEREST: nat := 8_000

  datatype Expiration = Expiration(delegator: Name, shares: int, due: int)

  type Pair = (Name, Name)
  type Accounts = map<Name, Account>
  type Delegations = map<Pair, Delegation>
  type Expirations = map<nat, Expiration>

  ghost function Lent(ds: Delegations): map<Pair, int> {
    map k | k in ds :: ds[k].shares
  }

  ghost function Lenders(ds: Delegations): map<Pair, Name> {
    map k | k in ds :: k.0
  }

  ghost function Borrowers(ds: Delegations): map<Pair, Name> {
    map k | k in ds :: k.1
  }

  ghost function Pending(es: Expirations): map<nat, int> {
    map i | i in es :: es[i].shares
  }

  ghost function PendingFor(es: Expirations): map<nat, Name> {
    map i | i in es :: es[i].delegator
  }

  ghost function Outgoing(ds: Delegations, a: Name): int {
    Sum(Group(Lent(ds), Lenders(ds), a))
  }

  ghost function Incoming(ds: Delegations, a: Name): int {
    Sum(Group(Lent(ds), Borrowers(ds), a))
  }

  ghost function Returning(es: Expirations, a: Name): int {
    Sum(Group(Pending(es), PendingFor(es), a))
  }

  /** Every counter is the sum of the records behind it. */
  ghost predicate BooksAgree(accounts: Accounts, ds: Delegations, es: Expirations) {
    forall a {:trigger accounts[a]} :: a in accounts ==>
      && accounts[a].delegated == Outgoing(ds, a) + Returning(es, a)
      && accounts[a].received == Incoming(ds, a)
  }

  /** Records are between known accounts, delegations for positive amounts. */
  ghost predicate RecordsOk(names: set<Name>, ds: Delegations, es: Expirations, next: nat) {
    && (forall k {:trigger ds[k]} :: k in ds ==>
          ds[k].shares > 0 && ds[k].interest <= MAX_INTEREST && k.0 in names && k.1 in names)
    && forall i {:trigger es[i]} :: i in es ==> es[i].shares >= 0 && es[i].delegator in names && i < next
  }

  /** Nobody has lent or is withdrawing more than they own. */
  ghost predicate Covered(accounts: Accounts) {
    forall a {:trigger accounts[a]} :: a in accounts ==>
      0 <= accounts[a].withdrawing && accounts[a].delegated + accounts[a].withdrawing <= accounts[a].vests
  }

  // ----- one record at a time -----

  lemma DelegationPut(ds: Delegations, k: Pair, d: Delegation, a: Name)
    ensures var change := d.shares - (if k in ds then ds[k].shares else 0);
            && Outgoing(ds[k := d], a) == Outgoing(ds, a) + (if k.0 == a then change else 0)
            && Incoming(ds[k := d], a) == Incoming(ds, a) + (if k.1 == a then change else 0)
  {
    GroupPut(Lent(ds), Lenders(ds), k, d.shares, k.0, a);
    GroupPut(Lent(ds), Borrowers(ds), k, d.shares, k.1, a);
    PutMaps(ds, k, d);
  }

  lemma PutMaps(ds: Delegations, k: Pair, d: Delegation)
    ensures Lent(ds[k := d]) == Lent(ds)[k := d.shares]
    ensures Lenders(ds[k := d]) == Lenders(ds)[k := k.0] && Borrowers(ds[k := d]) == Borrowers(ds)[k := k.1]
  {
  }

  lemma DelegationGone(ds: Delegations, k: Pair, a: Name)
    requires k in ds
    ensures Outgoing(ds - {k}, a) == Outgoing(ds, a) - (if k.0 == a then ds[k].shares else 0)
    ensures Incoming(ds - {k}, a) == Incoming(ds, a) - (if k.1 == a then ds[k].shares else 0)
  {
    GroupDrop(Lent(ds), Lenders(ds), k, a);
    GroupDrop(Lent(ds), Borrowers(ds), k, a);
    GoneMaps(ds, k);
  }

  lemma GoneMaps(ds: Delegations, k: Pair)
    ensures Lent(ds - {k}) == Lent(ds) - {k} && Lenders(ds - {k}) == Lenders(ds) - {k}
    ensures Borrowers(ds - {k}) == Borrowers(ds) - {k}
  {
  }

  lemma ExpirationPut(es: Expirations, i: nat, e: Expiration, a: Name)
    requires i !in es
    ensures Returning(es[i := e], a) == Returning(es, a) + if e.delegator == a then e.shares else 0
  {
    GroupPut(Pending(es), PendingFor(es), i, e.shares, e.delegator, a);
    assert Pending(es[i := e]) == Pending(es)[i := e.shares];
    assert PendingFor(es[i := e]) == PendingFor(es)[i := e.delegator];
  }

  lemma ExpirationGone(es: Expirations, i: nat, a: Name)
    requires i in es
    ensures Returning(es - {i}, a) == Returning(es, a) - if es[i].delegator == a then es[i].shares else 0
  {
    GroupDrop(Pending(es), PendingFor(es), i, a);
    assert Pending(es - {i}) == Pending(es) - {i};
    assert PendingFor(es - {i}) == PendingFor(es) - {i};
  }

  // ----- what the counters mean together -----

  /** effective_vesting_shares */
  function Effective(a: Account): int {
    a.vests - a.delegated + a.received
  }

  ghost function Effectives(accounts: Accounts): map<Name, int> {
    map a | a in accounts :: Effective(accounts[a])
  }

  ghost function Vests(accounts: Accounts): map<Name, int> {
    map a | a in accounts :: accounts[a].vests
  }

  ghost function AllOutgoing(accounts: Accounts, ds: Delegations): map<Name, int> {
    map a | a in accounts :: Outgoing(ds, a)
  }

  ghost function AllIncoming(accounts: Accounts, ds: Delegations): map<Name, int> {
    map a | a in accounts :: Incoming(ds, a)
  }

  ghost function AllReturning(accounts: Accounts, es: Expirations): map<Name, int> {
    map a | a in accounts :: Returning(es, a)
  }

  /** Delegating moves voting stake around but never creates any: all effective shares together are all vesting shares
      less those on their way back. */
  lemma EffectiveTotal(accounts: Accounts, ds: Delegations, es: Expirations, next: nat)
    requires BooksAgree(accounts, ds, es) && RecordsOk(accounts.Keys, ds, es, next)
    ensures Sum(Effectives(accounts)) + Sum(Pending(es)) == Sum(Vests(accounts))
  {
    var names := accounts.Keys;
    Regroup(Lent(ds), Lenders(ds), names, AllOutgoing(accounts, ds));
    Regroup(Lent(ds), Borrowers(ds), names, AllIncoming(accounts, ds));
    Regroup(Pending(es), PendingFor(es), names, AllReturning(accounts, es));
    AddUp(accounts, ds, es);
  }

  lemma Regroup<K>(m: map<K, int>, key: map<K, Name>, names: set<Name>, sums: map<Name, int>)
    requires m.Keys == key.Keys && sums.Keys == names && forall k {:trigger key[k]} :: k in key ==> key[k] in names
    requires forall a :: a in names ==> sums[a] == Sum(Group(m, key, a))
    ensures Sum(sums) == Sum(m)
  {
    hide Group, Sum, Members;
    SumByGroup(m, key, names);
    assert GroupSums(m, key, names) == sums;
    AllMembers(m, key, names);
  }

  lemma AllMembers<K>(m: map<K, int>, key: map<K, Name>, names: set<Name>)
    requires m.Keys == key.Keys && forall k {:trigger key[k]} :: k in key ==> key[k] in names
    ensures Members(m, key, names) == m
  {
  }

  lemma AddUp(accounts: Accounts, ds: Delegations, es: Expirations)
    requires BooksAgree(accounts, ds, es)
    ensures Sum(Vests(accounts)) + Sum(AllIncoming(accounts, ds)) ==
            Sum(Effectives(accounts)) + Sum(AllOutgoing(accounts, ds)) + Sum(AllReturning(accounts, es))
  {
    hide Outgoing, Incoming, Returning;
    var v, i, e, o, r :=
        Vests(accounts), AllIncoming(accounts, ds), Effectives(accounts), AllOutgoing(accounts,
                                                                                      ds), AllReturning(accounts, es);
    var left := map a | a in accounts :: v[a] + i[a];
    var eo := map a | a in accounts :: e[a] + o[a];
    SumAdd(v, i, left);
    SumAdd(e, o, eo);
    forall a | a in accounts ensures left[a] == eo[a] + r[a] {
      assert accounts[a] == accounts[a];
    }
    SumAdd(eo, r, left);
  }
}
