/** Proxied witness voting as the chain runs it: accounts, vote records and witness totals
    updated in place, with the caches repaired by walking up the proxy chain. */
module WitnessVoting {
  import opened Common
  import opened MapSums
  import opened ProxyForest
  import opened WitnessTally
  import opened VestingRoutes
  import opened ProxyMoves

  class Voting {
    var accounts: Accounts
    var records: Records
    var witnesses: map<Name, int>
    var totalVests: int

    /** The invariant of the whole component. */
    ghost predicate Valid()
      reads this
    {
      SumsAgree() && Entitled(accounts, records)
    }

    ghost predicate SumsAgree()
      reads this
    {
      && Shaped()
      && LevelsAgree(accounts, NOBODY)
      && VotesAgree(accounts, records, witnesses, NOBODY)
      && totalVests == Sum(AllStakes(accounts))
    }

    ghost predicate Shaped()
      reads this
    {
      ShapeOk(accounts, records, witnesses.Keys)
    }

    constructor ()
      ensures Valid() && accounts == map[] && witnesses == map[] && records == {} && totalVests == 0
    {
      accounts, records, witnesses, totalVests := map[], {}, map[], 0;
      new;
      assert AllStakes(accounts) == map[];
    }

    /** adjust_witness_vote: the stored votes may never exceed all vesting shares. */
    method AdjustWitnessVote(w: Name, delta: int) returns (ok: bool)
      requires w in witnesses
      modifies this`witnesses
      ensures witnesses == Bumped(old(witnesses), w, delta)
      ensures ok <==> witnesses[w] <= totalVests
    {
      witnesses := Bumped(witnesses, w, delta);
      ok := witnesses[w] <= totalVests;
    }

    /** adjust_witness_votes: every witness that `a` votes for, once. */
    method AdjustWitnessVotes(a: Name, delta: int) returns (ok: bool)
      requires forall r :: r in records ==> r.1 in witnesses
      modifies this`witnesses
      ensures witnesses.Keys == old(witnesses.Keys)
      ensures ok <==> Fits(old(witnesses), records, a, delta, totalVests)
      ensures ok ==> Credited(old(witnesses), witnesses, records, a, delta)
    {
      var todo := set r | r in records && r.0 == a;
      ok := true;
      while todo != {}
        invariant todo <= records && forall r :: r in todo ==> r.0 == a
        invariant witnesses.Keys == old(witnesses.Keys)
        invariant forall w :: w in witnesses ==>
                    witnesses[w] == old(witnesses)[w] + if (a, w) in records - todo then delta else 0
        invariant Fits(old(witnesses), records - todo, a, delta, totalVests)
        decreases todo
      {
        var r :| r in todo;
        ok := AdjustWitnessVote(r.1, delta);
        if !ok { return; }
        todo := todo - {r};
      }
    }

    /** The array loop inside adjust_proxied_witness_votes: delta[i] lands at level i + depth. */
    static method AddShifted(levels: seq<int>, delta: seq<int>, depth: nat) returns (r: seq<int>)
      requires |levels| == MAX_PROXY_DEPTH && |delta| == MAX_PROXY_DEPTH + 1 && depth < MAX_PROXY_DEPTH
      ensures |r| == MAX_PROXY_DEPTH
      ensures forall i :: 0 <= i < MAX_PROXY_DEPTH ==> r[i] == levels[i] + Shift(delta, depth, i)
    {
      r := levels;
      var i := MAX_PROXY_DEPTH - depth;
      while i > 0
        invariant 0 <= i <= MAX_PROXY_DEPTH - depth && |r| == MAX_PROXY_DEPTH
        invariant forall k :: 0 <= k < i + depth ==> r[k] == levels[k]
        invariant forall k :: i + depth <= k < MAX_PROXY_DEPTH ==> r[k] == levels[k] + delta[k - depth]
      {
        i := i - 1;
        r := r[i + depth := r[i + depth] + delta[i]];
      }
    }

    static method SumOf(delta: seq<int>, depth: nat) returns (total: int)
      requires |delta| == MAX_PROXY_DEPTH + 1 && depth <= MAX_PROXY_DEPTH
      ensures total == Total(delta, depth)
    {
      total := 0;
      for i := 0 to MAX_PROXY_DEPTH + 1 - depth
        invariant total == SeqSum(delta[..i])
      {
        assert delta[..i + 1][..i] == delta[..i];
        total := total + delta[i];
      }
    }

    /** The end of the walk: `a` casts its own votes, so its witnesses are told the rest. */
    method TellWitnesses(a: Name, total: int, ghost delta: seq<int>, ghost depth: nat, ghost detached: Name)
      returns (ok: bool)
      requires WellFormed(accounts) && RecordsOk(accounts, records, witnesses)
      requires a in accounts && accounts[a].proxy == NOBODY
      requires |delta| == MAX_PROXY_DEPTH + 1 && depth <= MAX_PROXY_DEPTH && total == Total(delta, depth)
      requires Owing(accounts, records, witnesses, detached, a, delta, depth)
      modifies this`witnesses
      ensures RecordsOk(accounts, records, witnesses) && witnesses.Keys == old(witnesses.Keys)
      ensures LevelsAgree(accounts, detached)
      ensures ok ==> VotesAgree(accounts, records, witnesses, detached)
      ensures !ok ==> Overfull(accounts, records, witnesses.Keys, detached, totalVests)
      ensures ok <==> Fits(old(witnesses), records, a, total, totalVests)
      ensures ok ==> Credited(old(witnesses), witnesses, records, a, total)
    {
      ghost var before := witnesses;
      ok := AdjustWitnessVotes(a, total);
      if ok {
        OwingSettled(accounts, records, before, witnesses, detached, a, delta, depth);
      } else {
        RefusalMeansOverflow(accounts, records, before, detached, a, delta, depth, totalVests);
      }
    }

    /** One hop of the walk: the proxy of `a` adds what reaches it, and owes the rest upwards. */
    method TellProxy(a: Name, delta: seq<int>, depth: nat, ghost detached: Name, ghost n: nat) returns (q: Name)
      requires WellFormed(accounts) && RecordsOk(accounts, records, witnesses)
      requires a in accounts && |delta| == MAX_PROXY_DEPTH + 1 && depth < MAX_PROXY_DEPTH
      requires Owing(accounts, records, witnesses, detached, a, delta, depth)
      requires accounts[a].proxy != NOBODY
      requires RootAfter(Proxies(accounts), a, n)
      requires detached == NOBODY || RootAfter(Proxies(accounts), detached, n + depth)
      modifies this`accounts
      ensures WellFormed(accounts) && RecordsOk(accounts, records, witnesses)
      ensures q == old(accounts)[a].proxy && q in accounts && q != detached
      ensures SameButLevels(old(accounts), accounts) && Proxies(accounts) == old(Proxies(accounts))
      ensures accounts == old(accounts)[q := accounts[q]]
      ensures n > 0 && RootAfter(Proxies(accounts), q, n - 1)
      ensures Owing(accounts, records, witnesses, detached, q, delta, depth + 1)
    {
      q := accounts[a].proxy;
      ghost var before := accounts;
      ChainIsStraight(before, detached, a, depth, n);
      var levels := AddShifted(accounts[q].proxied, delta, depth);
      accounts := accounts[q := accounts[q].(proxied := levels)];
      OwingMovesUp(before, accounts, records, witnesses, detached, a, delta, depth, n);
    }

    /** adjust_proxied_witness_votes with a level vector. `detached` is the account being taken
        out of the forest while its proxy field still points up; `n` bounds the chain. */
    method AdjustProxied(a: Name, delta: seq<int>, depth: nat, ghost detached: Name, ghost n: nat) returns (ok: bool)
      requires WellFormed(accounts) && RecordsOk(accounts, records, witnesses)
      requires a in accounts && |delta| == MAX_PROXY_DEPTH + 1 && depth <= MAX_PROXY_DEPTH
      requires Owing(accounts, records, witnesses, detached, a, delta, depth)
      requires RootAfter(Proxies(accounts), a, n)
      requires detached == NOBODY || RootAfter(Proxies(accounts), detached, n + depth)
      modifies this`accounts, this`witnesses
      ensures WellFormed(accounts) && SameButLevels(old(accounts), accounts) && witnesses.Keys == old(witnesses.Keys)
      ensures detached in accounts ==> accounts[detached] == old(accounts)[detached]
      ensures LevelsAgree(accounts, detached)
      ensures ok ==> VotesAgree(accounts, records, witnesses, detached)
      ensures !ok ==> Overfull(accounts, records, witnesses.Keys, detached, totalVests)
      decreases n
    {
      hide LevelsAgree, VotesAgree, Owing, Overfull, RecordsOk;
      if accounts[a].proxy == NOBODY {
        var total := SumOf(delta, depth);
        ok := TellWitnesses(a, total, delta, depth, detached);
      } else if depth >= MAX_PROXY_DEPTH {
        OwingExpires(accounts, records, witnesses, detached, a, delta);
        ok := true;
      } else {
        ghost var before := accounts;
        var q := TellProxy(a, delta, depth, detached, n);
        ghost var mid := accounts;
        ok := AdjustProxied(q, delta, depth + 1, detached, n - 1);
        SameButLevelsTransitive(before, mid, accounts);
        assert detached in accounts ==> accounts[detached] == mid[detached] == before[detached];
      }
    }

    method TellProxyStake(a: Name, delta: int, depth: nat, ghost n: nat) returns (q: Name)
      requires WellFormed(accounts) && RecordsOk(accounts, records, witnesses)
      requires a in accounts && depth < MAX_PROXY_DEPTH && accounts[a].proxy != NOBODY
      requires Owing(accounts, records, witnesses, NOBODY, a, [delta, 0, 0, 0, 0], depth)
      requires RootAfter(Proxies(accounts), a, n)
      modifies this`accounts
      ensures WellFormed(accounts) && RecordsOk(accounts, records, witnesses)
      ensures q == old(accounts)[a].proxy && q in accounts
      ensures SameButLevels(old(accounts), accounts) && Proxies(accounts) == old(Proxies(accounts))
      ensures n > 0 && RootAfter(Proxies(accounts), q, n - 1)
      ensures Owing(accounts, records, witnesses, NOBODY, q, [delta, 0, 0, 0, 0], depth + 1)
    {
      q := accounts[a].proxy;
      ghost var before := accounts;
      var levels := accounts[q].proxied[depth := accounts[q].proxied[depth] + delta];
      accounts := accounts[q := accounts[q].(proxied := levels)];
      OwingMovesUp(before, accounts, records, witnesses, NOBODY, a, [delta, 0, 0, 0, 0], depth, n);
    }

    /** adjust_proxied_witness_votes with a single amount. */
    method AdjustProxiedStake(a: Name, delta: int, depth: nat, ghost n: nat, ghost carrier: Name) returns (ok: bool)
      requires WellFormed(accounts) && RecordsOk(accounts, records, witnesses)
      requires a in accounts && depth <= MAX_PROXY_DEPTH
      requires Owing(accounts, records, witnesses, NOBODY, a, [delta, 0, 0, 0, 0], depth)
      requires RootAfter(Proxies(accounts), a, n)
      requires carrier == Carrier(accounts, a, MAX_PROXY_DEPTH - depth)
      modifies this`accounts, this`witnesses
      ensures WellFormed(accounts) && SameButLevels(old(accounts), accounts)
      ensures LevelsAgree(accounts, NOBODY)
      ensures ok ==> VotesAgree(accounts, records, witnesses, NOBODY)
      ensures ok <==> Fits(old(witnesses), records, carrier, delta, totalVests)
      ensures ok ==> Credited(old(witnesses), witnesses, records, carrier, delta)
      ensures !ok ==> Overfull(accounts, records, witnesses.Keys, NOBODY, totalVests)
      ensures witnesses.Keys == old(witnesses).Keys
      decreases n
    {
      ghost var vector := [delta, 0, 0, 0, 0];
      if accounts[a].proxy == NOBODY {
        TotalOfOne(delta, depth);
        ok := TellWitnesses(a, delta, vector, depth, NOBODY);
      } else if depth >= MAX_PROXY_DEPTH {
        OwingExpires(accounts, records, witnesses, NOBODY, a, vector);
        NobodyVotes(accounts, records, witnesses, delta, totalVests);
        ok := true;
      } else {
        ghost var before := accounts;
        var q := TellProxyStake(a, delta, depth, n);
        ghost var mid := accounts;
        CarrierSame(before, mid, q, MAX_PROXY_DEPTH - depth - 1);
        ok := AdjustProxiedStake(q, delta, depth + 1, n - 1, carrier);
        SameButLevelsTransitive(before, mid, accounts);
      }
    }

    /** The level vector that both proxy operations read off an account, negated. */
    method Withdrawn(x: Name) returns (delta: seq<int>)
      requires WellFormed(accounts) && x in accounts
      ensures delta == Negated(LevelsOf(accounts[x]))
    {
      delta := [-accounts[x].vests];
      for i := 0 to MAX_PROXY_DEPTH
        invariant |delta| == i + 1 && delta[0] == -accounts[x].vests
        invariant forall k :: 0 <= k < i ==> delta[k + 1] == -accounts[x].proxied[k]
      {
        delta := delta + [-accounts[x].proxied[i]];
      }
    }

    /** First half of both proxy operations: all that `x` contributes is taken back,
        from its proxies or from the witnesses it votes for. The vote limit cannot interfere. */
    method Detach(x: Name) returns (delta: seq<int>)
      requires Valid() && x in accounts
      modifies this`accounts, this`witnesses
      ensures Shaped() && LevelsAgree(accounts, x) && VotesAgree(accounts, records, witnesses, x)
      ensures SameButLevels(old(accounts), accounts) && accounts[x] == old(accounts)[x]
      ensures witnesses.Keys == old(witnesses.Keys)
      ensures totalVests == Sum(AllStakes(accounts))
      ensures delta == Negated(LevelsOf(accounts[x]))
    {
      delta := Withdrawn(x);
      ghost var before := accounts;
      assert HasRoot(Proxies(accounts), x);
      ghost var n :| RootAfter(Proxies(accounts), x, n);
      DetachOwes(accounts, records, witnesses, x, delta);
      var ok := AdjustProxied(x, delta, 0, x, n);
      WalkKeepsShape(before, accounts, records, witnesses.Keys, x, totalVests);
    }

    /** clear_witness_votes */
    method ClearWitnessVotes(x: Name)
      requires x in accounts
      modifies this`accounts, this`records
      ensures records == Without(old(records), x)
      ensures accounts == old(accounts)[x := old(accounts)[x].(votedFor := 0)]
    {
      records := Without(records, x);
      accounts := accounts[x := accounts[x].(votedFor := 0)];
    }

    /** account_witness_vote */
    method Vote(voter: Name, w: Name, approve: bool) returns (ok: bool)
      requires Valid()
      modifies this
      ensures Valid() && totalVests == old(totalVests)
      ensures ok <==> VoteAllowed(old(accounts), old(records), old(witnesses).Keys, voter, w, approve)
      ensures !ok ==> unchanged(this)
      ensures ok ==> records == if approve then old(records) + {(voter, w)} else old(records) - {(voter, w)}
      ensures ok ==> witnesses == Bumped(old(witnesses), w, Ballot(old(accounts)[voter], approve))
      ensures ok ==> accounts == Counted(old(accounts), voter, approve)
      ensures Declined(accounts) == Declined(old(accounts))
    {
      if voter !in accounts || accounts[voter].proxy != NOBODY || (approve && !accounts[voter].canVote)
         || w !in witnesses || ((voter, w) in records) == approve {
        return false;
      }
      if approve && accounts[voter].votedFor >= MAX_WITNESS_VOTES {
        return false;
      }
      ghost var accounts0, records0, witnesses0 := accounts, records, witnesses;
      VoteEntitled(accounts, records, voter, w, approve);
      ok := AdjustWitnessVote(w, Ballot(accounts[voter], approve));
      records := if approve then records + {(voter, w)} else records - {(voter, w)};
      accounts := Counted(accounts, voter, approve);
      VoteAgrees(accounts0, records0, witnesses0, voter, w, approve, accounts, records, witnesses, totalVests);
    }

    /** The loop check of account_witness_proxy: walk up from the new proxy, refusing a revisit
        and a chain of more than MAX_PROXY_DEPTH accounts. */
    method ChainCheck(x: Name, target: Name) returns (ok: bool)
      requires WellFormed(accounts) && Acyclic(accounts)
      requires x in accounts && target in accounts && x != target
      ensures ok <==> ChainAllows(accounts, x, target)
    {
      ghost var p := Proxies(accounts);
      assert HasRoot(p, target);
      ghost var h: nat :| RootAfter(p, target, h);
      ghost var k: nat := 0;
      assert Hop(p, target, 0) == target;
      var seen := {x, target};
      var current := target;
      while accounts[current].proxy != NOBODY
        invariant 0 <= k <= h && current == Hop(p, target, k) && current in accounts
        invariant RootAfter(p, current, h - k)
        invariant x in seen && |seen| == k + 2 <= MAX_PROXY_DEPTH
        invariant forall b :: b in seen ==> b == x || OnChain(p, target, k, b)
        invariant forall i :: 0 <= i <= k ==> Hop(p, target, i) != x
        decreases h - k
      {
        var next := accounts[current].proxy;
        HopThroughLast(p, target, k);
        if next in seen {
          RevisitMeansLoop(accounts, x, target, h, k, next);
          return false;
        }
        seen := seen + {next};
        current := next;
        k := k + 1;
        assert next == Hop(p, target, k);
        if |seen| > MAX_PROXY_DEPTH {
          TooLongIsRefused(accounts, x, target, h);
          return false;
        }
      }
      return true;
    }

    /** account_witness_proxy, for an operation whose proxy differs from its account. */
    method SetProxy(x: Name, target: Name) returns (ok: bool)
      requires Valid() && x != target
      modifies this
      ensures Valid() && totalVests == old(totalVests)
      ensures ok <==> ProxyAllowed(old(accounts), x, target)
      ensures !ok ==> unchanged(this)
      ensures ok ==> SameButLevels(Moved(old(accounts), x, target, true), accounts) && old(accounts)[x].canVote
      ensures ok ==> old(accounts)[x].proxy != target && records == Without(old(records), x)
      ensures ok ==> exists h: nat :: h < MAX_PROXY_DEPTH && RootAfter(Proxies(accounts), x, h)
      ensures Declined(accounts) == Declined(old(accounts))
    {
      if x !in accounts || accounts[x].proxy == target || !accounts[x].canVote {
        return false;
      }
      if target != NOBODY {
        if target !in accounts { return false; }
        var free := ChainCheck(x, target);
        if !free { return false; }
        ghost var h := ChainLength(accounts, x, target);
        MoveTo(x, target, h);
      } else {
        Release(x, true);
      }
      return true;
    }

    /** The accepted case with a new proxy. The source checks the chain after the first walk;
        the walk changes no proxy, so checking first is the same. */
    method MoveTo(x: Name, target: Name, ghost h: nat)
      requires Valid() && x in accounts && target in accounts && accounts[x].canVote
      requires RootAfter(Proxies(accounts), target, h)
      requires forall i {:trigger Hop(Proxies(accounts), target, i)} :: 0 <= i <= h ==>
                 Hop(Proxies(accounts), target, i) != x
      modifies this`accounts, this`records, this`witnesses
      ensures Valid()
      ensures SameButLevels(Moved(old(accounts), x, target, true), accounts) && records == Without(old(records), x)
      ensures Declined(accounts) == Declined(old(accounts)) && RootAfter(Proxies(accounts), x, h + 1)
    {
      hide Entitled;
      ghost var accounts0, records0 := accounts, records;
      var delta := Detach(x);
      SameLevelsSameShape(accounts0, accounts);
      ghost var accounts1 := accounts;
      Attach(x, target, delta, h);
      MovedLevels(accounts0, accounts1, accounts, x, target, true);
      MovedEntitled(accounts0, accounts, records0, x, target, true);
    }

    /** Second half of setting a proxy: the records go, and all that `x` contributes
        is added again from its new place. */
    method Attach(x: Name, target: Name, delta: seq<int>, ghost h: nat)
      requires Shaped() && x in accounts && target in accounts
      requires LevelsAgree(accounts, x) && VotesAgree(accounts, records, witnesses, x)
      requires totalVests == Sum(AllStakes(accounts)) && delta == Negated(LevelsOf(accounts[x]))
      requires RootAfter(Proxies(accounts), target, h)
      requires forall i {:trigger Hop(Proxies(accounts), target, i)} :: 0 <= i <= h ==>
                 Hop(Proxies(accounts), target, i) != x
      modifies this`accounts, this`records, this`witnesses
      ensures SumsAgree() && records == Without(old(records), x)
      ensures SameButLevels(Moved(old(accounts), x, target, old(accounts)[x].canVote), accounts)
      ensures RootAfter(Proxies(accounts), x, h + 1)
    {
      hide LevelsAgree, VotesAgree, Owing, AllStakes, RootAfter, Entitled;
      ghost var accounts1, records1 := accounts, records;
      ClearWitnessVotes(x);
      accounts := accounts[x := accounts[x].(proxy := target)];
      ghost var accounts2 := accounts;
      AttachReady(accounts1, records1, witnesses, x, target, h, accounts2);
      Reattach(x, delta, accounts2[x], h + 1);
      SameLevelsSameShape(accounts2, accounts);
    }

    /** The second walk, with the sign turned back. */
    method Reattach(x: Name, delta: seq<int>, ghost moved: Account, ghost n: nat)
      requires Shaped() && x in accounts && accounts[x] == moved
      requires totalVests == Sum(AllStakes(accounts)) && delta == Negated(LevelsOf(moved))
      requires Owing(accounts, records, witnesses, NOBODY, x, LevelsOf(moved), 0)
      requires RootAfter(Proxies(accounts), x, n)
      modifies this`accounts, this`witnesses
      ensures SumsAgree()
      ensures SameButLevels(old(accounts), accounts)
    {
      ghost var before := accounts;
      var back := Negate(delta);
      NegatedTwice(moved, delta, back);
      var ok := AdjustProxied(x, back, 0, NOBODY, n);
      WalkKeepsShape(before, accounts, records, witnesses.Keys, NOBODY, totalVests);
    }

    static method Negate(delta: seq<int>) returns (r: seq<int>)
      ensures r == Negated(delta)
    {
      r := [];
      for i := 0 to |delta|
        invariant |r| == i && forall k :: 0 <= k < i ==> r[k] == -delta[k]
      {
        r := r + [-delta[i]];
      }
    }

    /** `x` becomes a plain account: the end of clearing a proxy and of declining to vote. */
    method Release(x: Name, canVote: bool)
      requires Valid() && x in accounts
      modifies this`accounts, this`records, this`witnesses
      ensures Valid()
      ensures SameButLevels(Moved(old(accounts), x, NOBODY, canVote), accounts) && records == Without(old(records), x)
      ensures Declined(accounts) == if canVote then Declined(old(accounts)) - {x} else Declined(old(accounts)) + {x}
      ensures RootAfter(Proxies(accounts), x, 0)
    {
      hide Entitled;
      ghost var accounts0, records0 := accounts, records;
      var _ := Detach(x);
      ghost var accounts1 := accounts;
      SameLevelsSameShape(accounts0, accounts1);
      ClearWitnessVotes(x);
      ghost var moved := accounts1[x].(proxy := NOBODY, votedFor := 0, canVote := canVote);
      accounts := accounts[x := accounts[x].(proxy := NOBODY, canVote := canVote)];
      assert accounts == accounts1[x := moved];
      ReleaseAgrees(accounts1, records0, witnesses, x, moved, records);
      assert RootAfter(Proxies(accounts1[x := moved]), x, 0);
      ShapeAfterMove(accounts1, records0, witnesses.Keys, x, moved, 0);
      StakesAfterMove(accounts1, x, moved);
      MovedLevels(accounts0, accounts1, accounts, x, NOBODY, canVote);
      MovedEntitled(accounts0, accounts, records0, x, NOBODY, canVote);
    }

    /** process_decline_voting_rights, for one matured request. */
    method DeclineVoting(x: Name)
      requires Valid() && x in accounts
      modifies this`accounts, this`records, this`witnesses
      ensures Valid()
      ensures SameButLevels(Moved(old(accounts), x, NOBODY, false), accounts) && records == Without(old(records), x)
      ensures Declined(accounts) == Declined(old(accounts)) + {x}
    {
      Release(x, false);
    }

    /** A stake change of one account, carried up its proxy chain. */
    method ChangeStake(a: Name, change: int) returns (ok: bool)
      requires Shaped() && a in accounts && 0 <= accounts[a].vests + change
      requires LevelsAgree(accounts, NOBODY) && VotesAgree(accounts, records, witnesses, NOBODY)
      modifies this`accounts, this`witnesses
      ensures Shaped() && LevelsAgree(accounts, NOBODY)
      ensures SameButLevels(Staked(old(accounts), a, change), accounts)
      ensures Sum(AllStakes(accounts)) == Sum(AllStakes(old(accounts))) + change
      ensures ok ==> VotesAgree(accounts, records, witnesses, NOBODY)
      ensures ok <==> Fits(old(witnesses), records, Carrier(old(accounts), a, MAX_PROXY_DEPTH), change, totalVests)
      ensures ok ==> Credited(old(witnesses), witnesses, records, Carrier(old(accounts), a, MAX_PROXY_DEPTH), change)
      ensures witnesses.Keys == old(witnesses).Keys
      ensures !ok ==> Overfull(accounts, records, witnesses.Keys, NOBODY, totalVests)
    {
      ghost var accounts0 := accounts;
      accounts := Staked(accounts, a, change);
      ghost var accounts1 := accounts;
      StakeReady(accounts0, records, witnesses, a, change);
      assert HasRoot(Proxies(accounts1), a);
      ghost var n: nat :| RootAfter(Proxies(accounts1), a, n);
      CarrierSame(accounts0, accounts1, a, MAX_PROXY_DEPTH);
      ok := AdjustProxiedStake(a, change, 0, n, Carrier(accounts, a, MAX_PROXY_DEPTH));
      ShapeKept(accounts1, accounts, records, witnesses.Keys);
    }

    /** The voting side of create_vesting: new shares for `a` and for the total. */
    method AddVests(a: Name, amount: nat)
      requires Valid() && a in accounts
      modifies this`accounts, this`witnesses, this`totalVests
      ensures Valid() && totalVests == old(totalVests) + amount && Declined(accounts) == Declined(old(accounts))
      ensures SameButLevels(Staked(old(accounts), a, amount), accounts)
    {
      hide Entitled;
      ghost var accounts0 := accounts;
      totalVests := totalVests + amount;
      var ok := ChangeStake(a, amount);
      NeverOverfull(accounts, records, witnesses.Keys, NOBODY, totalVests);
      StakedRights(accounts0, accounts, a, amount);
      SameRightsEntitled(accounts0, accounts, records);
    }

    /** One credit; nothing is done for an amount that rounds to zero. */
    method Credit(a: Name, deposit: nat) returns (ok: bool)
      requires Shaped() && a in accounts
      requires LevelsAgree(accounts, NOBODY) && VotesAgree(accounts, records, witnesses, NOBODY)
      requires forall w :: w in witnesses ==> witnesses[w] <= totalVests
      modifies this`accounts, this`witnesses
      ensures Shaped() && LevelsAgree(accounts, NOBODY) && witnesses.Keys == old(witnesses).Keys
      ensures SameButLevels(Staked(old(accounts), a, deposit), accounts)
      ensures Sum(AllStakes(accounts)) == Sum(AllStakes(old(accounts))) + deposit
      ensures ok ==> VotesAgree(accounts, records, witnesses, NOBODY)
      ensures ok <==> Fits(old(witnesses), records, Carrier(old(accounts), a, MAX_PROXY_DEPTH), deposit, totalVests)
      ensures ok ==> Credited(old(witnesses), witnesses, records, Carrier(old(accounts), a, MAX_PROXY_DEPTH), deposit)
      ensures ok ==> forall w :: w in witnesses ==> witnesses[w] <= totalVests
    {
      if deposit > 0 {
        ok := ChangeStake(a, deposit);
      } else {
        assert Staked(accounts, a, 0) == accounts;
        ok := true;
      }
    }

    /** First pass of process_vesting_withdrawals over the routes of one account: shares that stay
        shares are credited to their targets while the source still holds them. */
    method CreditRoutes(routes: seq<Route>, amount: nat) returns (ok: bool, asVests: nat)
      requires Valid() && RoutesTo(routes, accounts.Keys)
      modifies this`accounts, this`witnesses
      ensures Shaped() && LevelsAgree(accounts, NOBODY) && witnesses.Keys == old(witnesses).Keys
      ensures ok <==> RoomForCredits(old(accounts), records, old(witnesses), routes, amount, totalVests)
      ensures ok ==> VotesAgree(accounts, records, witnesses, NOBODY)
      ensures ok ==> Received(old(accounts), accounts, routes, amount)
      ensures ok ==> asVests == Deposited(routes, amount, true)
      ensures ok ==> Sum(AllStakes(accounts)) == totalVests + asVests
    {
      ok, asVests := true, 0;
      ghost var accounts0, witnesses0 := accounts, witnesses;
      WithinTotal(accounts, records, witnesses, totalVests);
      for i := 0 to |routes|
        invariant Shaped() && LevelsAgree(accounts, NOBODY) && witnesses.Keys == witnesses0.Keys
        invariant VotesAgree(accounts, records, witnesses, NOBODY)
        invariant Received(accounts0, accounts, routes[..i], amount)
        invariant asVests == Deposited(routes[..i], amount, true)
        invariant Sum(AllStakes(accounts)) == totalVests + asVests
        invariant CreditsMade(accounts0, records, witnesses0, witnesses, routes[..i], amount)
        invariant forall w :: w in witnesses ==> witnesses[w] <= totalVests
      {
        RouteStep(routes, amount, i, NOBODY);
        var deposit := if routes[i].autoVest then Deposit(amount, routes[i].percent) else 0;
        asVests := asVests + deposit;
        ghost var before, votes := accounts, witnesses;
        CarrierSame(accounts0, accounts, routes[i].to, MAX_PROXY_DEPTH);
        ok := Credit(routes[i].to, deposit);
        if !ok {
          CreditRefused(accounts0, records, witnesses0, votes, routes, amount, i, totalVests);
          return;
        }
        ReceivedOneMore(accounts0, before, accounts, routes, amount, i, deposit);
        CreditStep(accounts0, records, witnesses0, votes, witnesses, routes, amount, i, deposit);
      }
      assert routes[..|routes|] == routes;
    }

    /** Second pass: shares that leave as liquid tokens come off the total. */
    method ConvertRoutes(routes: seq<Route>, amount: nat) returns (asSteem: nat)
      modifies this`totalVests
      ensures asSteem == Deposited(routes, amount, false) && totalVests == old(totalVests) - asSteem
    {
      asSteem := 0;
      for i := 0 to |routes|
        invariant asSteem == Deposited(routes[..i], amount, false) && totalVests == old(totalVests) - asSteem
      {
        RouteStep(routes, amount, i, NOBODY);
        if !routes[i].autoVest {
          var deposit := Deposit(amount, routes[i].percent);
          asSteem := asSteem + deposit;
          totalVests := totalVests - deposit;
        }
      }
      assert routes[..|routes|] == routes;
    }

    /** One due withdrawal of process_vesting_withdrawals. It goes through exactly when the credits,
        made before the debit, fit below the total; otherwise the block it belongs to is given up. */
    method PowerDown(from: Name, amount: nat, routes: seq<Route>) returns (ok: bool)
      requires Valid() && from in accounts && amount <= accounts[from].vests
      requires RoutesTo(routes, accounts.Keys) && PercentSum(routes) <= HUNDRED_PERCENT
      modifies this`accounts, this`witnesses, this`totalVests
      ensures Valid()
      ensures ok <==> RoomForCredits(old(accounts), records, old(witnesses), routes, amount, old(totalVests))
      ensures !ok ==> unchanged(this)
      ensures ok ==> totalVests == old(totalVests) - amount + Deposited(routes, amount, true)
      ensures SameRights(old(accounts), accounts) && Declined(accounts) == Declined(old(accounts))
      ensures ok ==> Paid(old(accounts), accounts, routes, amount, from)
    {
      hide Entitled;
      var accounts0, witnesses0 := accounts, witnesses;
      var asVests;
      ok, asVests := CreditRoutes(routes, amount);
      if !ok {
        accounts, witnesses := accounts0, witnesses0;
        return;
      }
      var asSteem := ConvertRoutes(routes, amount);
      DepositsWithin(routes, amount);
      var toConvert: int := amount - asSteem - asVests;
      if toConvert < 0 {
        toConvert := 0;
      }
      totalVests := totalVests - toConvert;
      assert ReceivedBy(routes, amount, from) >= 0;
      ghost var accounts1 := accounts;
      Debit(from, amount);
      AfterDebit(accounts0, accounts1, accounts, routes, amount, from);
      SameRightsEntitled(accounts0, accounts, records);
    }

    /** The source gives up its shares once the total has been lowered; this cannot be refused. */
    method Debit(from: Name, amount: nat)
      requires Shaped() && LevelsAgree(accounts, NOBODY) && VotesAgree(accounts, records, witnesses, NOBODY)
      requires from in accounts && amount <= accounts[from].vests
      requires Sum(AllStakes(accounts)) - amount == totalVests
      modifies this`accounts, this`witnesses
      ensures SumsAgree()
      ensures SameButLevels(Staked(old(accounts), from, 0 - amount as int), accounts)
    {
      var ok := ChangeStake(from, 0 - amount as int);
      NeverOverfull(accounts, records, witnesses.Keys, NOBODY, totalVests);
    }

    /** The vesting part of clear_null_account_balance: the shares vanish and nobody is told.
        That is harmless exactly when nothing depends on them. */
    method ClearVests(x: Name)
      requires Valid() && x in accounts
      modifies this`accounts, this`totalVests
      ensures accounts == Staked(old(accounts), x, -old(accounts)[x].vests)
      ensures totalVests == old(totalVests) - old(accounts)[x].vests
      ensures Valid() <==> old(accounts)[x].vests == 0
                           || (old(accounts)[x].proxy == NOBODY && Choices(records, x) == {})
      ensures Declined(accounts) == Declined(old(accounts))
    {
      hide Entitled;
      ghost var accounts0 := accounts;
      ClearingAgrees(accounts, records, witnesses, x);
      totalVests := totalVests - accounts[x].vests;
      accounts := Staked(accounts, x, -accounts[x].vests);
      StakedRights(accounts0, accounts, x, -accounts0[x].vests);
      SameRightsEntitled(accounts0, accounts, records);
    }

    /** A new account holds nothing and supports nobody. */
    method CreateAccount(x: Name)
      requires Valid() && x != NOBODY && x !in accounts
      modifies this`accounts
      ensures Valid() && accounts == old(accounts)[x := FRESH] && Declined(accounts) == Declined(old(accounts))
    {
      FreshAccountAgrees(accounts, records, witnesses, x);
      FreshEntitled(accounts, records, x);
      accounts := accounts[x := FRESH];
    }

    /** A new witness starts without votes. */
    method CreateWitness(w: Name)
      requires Valid() && w !in witnesses
      modifies this`witnesses
      ensures Valid() && witnesses == old(witnesses)[w := 0]
    {
      forall r | r in records ensures r.1 != w {
      }
      assert Backing(accounts, records, NOBODY, w) == map[];
      witnesses := witnesses[w := 0];
    }
  }

  /** The operations and block-level steps that touch witness votes. */
  datatype Step =
    | VoteStep(voter: Name, w: Name, approve: bool)
    | ProxyStep(x: Name, target: Name)
    | DeclineStep(x: Name)
    | VestStep(x: Name, amount: nat)
    | WithdrawStep(x: Name, amount: nat, routes: seq<Route>)
    | NullStep(x: Name)
    | AccountStep(x: Name)
    | WitnessStep(x: Name)

  /** What the chain guarantees about a step before it is evaluated: operations are validated, amounts
      are cut to what is held, route percentages were checked, and nobody can sign for the null account. */
  predicate Admissible(v: Voting, s: Step)
    reads v
  {
    match s
    case VoteStep(_, _, _) => true
    case ProxyStep(x, target) => x != target
    case DeclineStep(x) => x in v.accounts
    case VestStep(x, _) => x in v.accounts
    case WithdrawStep(x, amount, routes) =>
      && x in v.accounts && amount <= v.accounts[x].vests
      && RoutesTo(routes, v.accounts.Keys) && PercentSum(routes) <= HUNDRED_PERCENT
    case NullStep(x) => x in v.accounts && v.accounts[x].proxy == NOBODY && Choices(v.records, x) == {}
    case AccountStep(x) => x != NOBODY && x !in v.accounts
    case WitnessStep(x) => x !in v.witnesses
  }

  /** An operation that is refused is left out; only a withdrawal that fails takes its block with it. */
  method Perform(v: Voting, s: Step) returns (ok: bool)
    requires v.Valid() && Admissible(v, s)
    modifies v
    ensures v.Valid() && Declined(old(v.accounts)) <= Declined(v.accounts)
    ensures ok <==> s.WithdrawStep? ==>
              RoomForCredits(old(v.accounts), old(v.records), old(v.witnesses), s.routes, s.amount, old(v.totalVests))
  {
    ok := true;
    match s
    case VoteStep(voter, w, approve) => var _ := v.Vote(voter, w, approve);
    case ProxyStep(x, target) => var _ := v.SetProxy(x, target);
    case DeclineStep(x) => v.DeclineVoting(x);
    case VestStep(x, amount) => v.AddVests(x, amount);
    case WithdrawStep(x, amount, routes) => ok := v.PowerDown(x, amount, routes);
    case NullStep(x) => v.ClearVests(x);
    case AccountStep(x) => v.CreateAccount(x);
    case WitnessStep(x) => v.CreateWitness(x);
  }

  /** What the kept invariant means in any state: the forest has no loops, each level is the stake arriving over exactly
      that many hops, nothing is tallied twice or lost, no witness has more than everything, and whoever has declined to
      vote supports nobody. */
  lemma ValidMeans(v: Voting)
    requires v.Valid()
    ensures Acyclic(v.accounts)
    ensures forall a, i: nat :: a in v.accounts && i <= MAX_PROXY_DEPTH ==>
              Level(v.accounts[a], i) == Sum(StakeAt(v.accounts, a, i))
    ensures Sum(Tally(v.accounts, NOBODY)) == v.totalVests
    ensures forall w :: w in v.witnesses ==> v.witnesses[w] <= v.totalVests
    ensures forall a :: a in Declined(v.accounts) ==>
              v.accounts[a].proxy == NOBODY && forall w :: (a, w) !in v.records
  {
    hide Sum, StakeAt, Level, Tally, Backing, AllStakes;
    forall a, i: nat | a in v.accounts && i <= MAX_PROXY_DEPTH
      ensures Level(v.accounts[a], i) == Sum(StakeAt(v.accounts, a, i))
    {
      LevelIsStakeAtDistance(v.accounts, a, i);
    }
    TallyIsTotalStake(v.accounts, NOBODY);
    DeclinedSupportNobody(v.accounts, v.records);
    forall w | w in v.witnesses ensures v.witnesses[w] <= v.totalVests {
      BackingWithinTotal(v.accounts, v.records, v.witnesses, NOBODY, w);
    }
  }

  lemma DeclinedSupportNobody(accounts: Accounts, records: Records)
    requires Entitled(accounts, records)
    ensures forall a :: a in Declined(accounts) ==> accounts[a].proxy == NOBODY && forall w :: (a, w) !in records
  {
    forall a | a in Declined(accounts) ensures accounts[a].proxy == NOBODY && forall w :: (a, w) !in records {
      assert Choices(records, a) == {};
      forall w ensures (a, w) !in records {
        assert (a, w) in records ==> w in Choices(records, a);
      }
    }
  }

  /** One block: all of its steps, or nothing. */
  method PerformBlock(v: Voting, steps: seq<Step>) returns (ok: bool)
    requires v.Valid()
    modifies v
    ensures v.Valid() && Declined(old(v.accounts)) <= Declined(v.accounts)
    ensures !ok ==> && v.accounts == old(v.accounts) && v.records == old(v.records)
                    && v.witnesses == old(v.witnesses) && v.totalVests == old(v.totalVests)
  {
    hide ShapeOk, LevelsAgree, VotesAgree, AllStakes, RoomForCredits, Entitled, Declined;
    var accounts, records, witnesses, totalVests := v.accounts, v.records, v.witnesses, v.totalVests;
    for i := 0 to |steps|
      invariant v.Valid() && Declined(old(v.accounts)) <= Declined(v.accounts)
    {
      if Admissible(v, steps[i]) {
        ok := Perform(v, steps[i]);
        if !ok {
          v.accounts, v.records, v.witnesses, v.totalVests := accounts, records, witnesses, totalVests;
          return;
        }
      }
    }
    ok := true;
  }

  /** So it does after any run of blocks; and whoever has declined to vote once supports nobody ever again. */
  method Run(v: Voting, blocks: seq<seq<Step>>)
    requires v.Valid()
    modifies v
    ensures v.Valid() && Acyclic(v.accounts) && Sum(Tally(v.accounts, NOBODY)) == v.totalVests
    ensures forall a, i: nat :: a in v.accounts && i <= MAX_PROXY_DEPTH ==>
              Level(v.accounts[a], i) == Sum(StakeAt(v.accounts, a, i))
    ensures forall w :: w in v.witnesses ==> v.witnesses[w] <= v.totalVests
    ensures forall a :: a in old(v.accounts) && !old(v.accounts)[a].canVote ==>
              && a in v.accounts && !v.accounts[a].canVote && v.accounts[a].proxy == NOBODY
              && forall w :: (a, w) !in v.records
  {
    for i := 0 to |blocks|
      invariant v.Valid() && Declined(old(v.accounts)) <= Declined(v.accounts)
    {
      var _ := PerformBlock(v, blocks[i]);
    }
    ValidMeans(v);
    assert forall a :: a in old(v.accounts) && !old(v.accounts)[a].canVote ==> a in Declined(v.accounts);
  }
}
