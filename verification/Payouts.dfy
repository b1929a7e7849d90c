/** The cashout loop: every due comment is paid from the reward fund and leaves the reward sums. */
module Payouts {
  import opened Common
  import opened TreeSums
  import opened LedgerState
  import opened Ledger
  import opened CashoutSteps
  import opened Cashout
  import opened CashoutGrants
  import opened Grants
  import opened SharePrice
  import opened Requests
  import opened LedgerPayments
  import opened Curation
  import opened CommentForest
  import opened Discussions

  predicate IsDue(x: Comment, now: int) {
    x.cashout.Some? && x.cashout.value <= now
  }

  function Due(cs: Comments, now: int): set<Id> {
    set c | c in cs && IsDue(cs[c], now)
  }

  /** Exactly the comments in `done` have been paid out; the rest differ at most in the cached sums. */
  ghost predicate Progress(before: Comments, after: Comments, done: set<Id>) {
    && before.Keys == after.Keys
    && forall c {:trigger after[c]} :: c in before ==>
         after[c] == (if c in done then PaidOut(before[c]) else before[c]).(shares := after[c].shares)
  }

  predicate PostsOk(posts: map<Id, Post>, cs: Comments, names: set<Name>) {
    cs.Keys <= posts.Keys && forall c {:trigger posts[c]} :: c in posts ==> PostOk(posts[c], names)
  }

  /** The post's part of the fund has reached exactly the accounts it is granted to, or nothing moved because there was
      nothing to pay. */
  ghost predicate CommentPaid(s: State, r: State, p: Post, net: int, total: int, printRate: nat) {
    && PostOk(p, s.holders.Keys) && FeedOk(s.feed) && s.rewardFund >= 0 && Value(net) <= total
    && var reward := if net > 0 then Reward(s.rewardFund, net, p.rewardWeight, total, s.feed, p.maxPayout) else 0;
       if reward == 0 then r == s
       else Support(p.votes, |p.votes|) <= MAX_SHARES && PostPaid(s, r, p, reward, printRate)
  }

  /** A payout only adds shares, and dilutes nobody. */
  lemma PayoutAddsShares(s: State, r: State, p: Post, net: int, total: int, printRate: nat)
    requires InOrder(s) && CommentPaid(s, r, p, net, total, printRate)
    ensures SharesAdded(s, r)
  {
    if r != s && s.totalVests > 0 {
      var reward := Reward(s.rewardFund, net, p.rewardWeight, total, s.feed, p.maxPayout);
      var grants := PostGrants(p, reward, s.holders.Keys);
      hide Reward, PostGrants, PoolThrough, PostOk, Support;
      GrantsKeepPrice(PoolOf(s), grants);
    }
  }

  /** The comments in the order they are paid out, and the states and reward totals in between. */
  datatype Trail = Trail(states: seq<State>, totals: seq<int>, order: seq<Id>)

  /** The comments of the trail are paid one after another, each from what the ones before it left of the fund and in
      proportion to its part of what they left of the reward shares. */
  ghost predicate PaidInTurn(t: Trail, posts: map<Id, Post>, cs: Comments, printRate: nat) {
    && |t.states| == |t.totals| == |t.order| + 1
    && (forall i :: 0 <= i < |t.order| ==> t.order[i] in posts && t.order[i] in cs)
    && (forall i, j :: 0 <= i < j < |t.order| ==> t.order[i] != t.order[j])
    && forall i {:trigger t.order[i]} :: 0 <= i < |t.order| ==>
         && CommentPaid(t.states[i], t.states[i + 1], posts[t.order[i]], cs[t.order[i]].net, t.totals[i], printRate)
         && t.totals[i + 1] == t.totals[i] - Value(cs[t.order[i]].net)
  }

  /** The trail leads from one state to the other, through exactly the given comments. */
  ghost predicate Leads(t: Trail, s: State, total: int, r: State, left: int, done: set<Id>) {
    && |t.states| == |t.totals| == |t.order| + 1
    && t.states[0] == s && t.states[|t.order|] == r && t.totals[0] == total && t.totals[|t.order|] == left
    && forall c :: c in t.order <==> c in done
  }

  function Extended(t: Trail, s: State, total: int, c: Id): Trail {
    Trail(t.states + [s], t.totals + [total], t.order + [c])
  }

  lemma TrailGrows(t: Trail, posts: map<Id, Post>, cs: Comments, printRate: nat, s: State, total: int, was: State,
                   before: int, now: State, left: int, done: set<Id>, c: Id)
    requires PaidInTurn(t, posts, cs, printRate) && Leads(t, s, total, was, before, done)
    requires c in posts && c in cs && c !in done
    requires CommentPaid(was, now, posts[c], cs[c].net, before, printRate) && left == before - Value(cs[c].net)
    ensures var u := Extended(t, now, left, c);
            PaidInTurn(u, posts, cs, printRate) && Leads(u, s, total, now, left, done + {c})
  {
    hide CommentPaid;
    var u := Extended(t, now, left, c);
    var n := |t.order|;
    forall i | 0 <= i < n + 1
      ensures CommentPaid(u.states[i], u.states[i + 1], posts[u.order[i]], cs[u.order[i]].net, u.totals[i], printRate)
      ensures u.totals[i + 1] == u.totals[i] - Value(cs[u.order[i]].net)
    {
      if i < n {
        assert u.order[i] == t.order[i];
      }
    }
  }

  /** cashout_comment_helper. The claim divides by the total of the reward sums, which is positive and at
      least the comment's own value whenever there is something to claim. */
  method CashOut(l: Ledger, f: Forum, c: Id, post: Post, printRate: nat) returns (ok: bool)
    requires l.Valid() && f.Valid() && c in f.comments && PostOk(post, l.db.holders.Keys)
    requires printRate <= HUNDRED_PERCENT
    modifies l, f
    ensures l.Valid() && f.Valid() && l.db.holders.Keys == old(l.db).holders.Keys && l.db.rewardFund >= 0
    ensures if ok then SharesOnly(Closed(old(f.comments), c), f.comments)
            else l.db == old(l.db) && f.comments == old(f.comments)
    ensures ok ==> && CommentPaid(old(l.db), l.db, post, old(f.comments)[c].net, old(f.total), printRate)
                   && f.total == old(f.total) - Value(old(f.comments)[c].net)
    ensures SharesAdded(old(l.db), l.db)
  {
    hide Counted, SharesAgree, CountsAgree, SharesOnly, Shaped, InOrder, Conserved, Reward, RewardPaid, PostOk,
        PostPaid,
        Support;
    FundNotNegative(l);
    if f.comments[c].net > 0 {
      ValueWithinTotal(f.comments, f.total, c);
      var reward := PayPost(l, post, f.comments[c].net, f.total, printRate);
      if reward.None? {
        return false;
      }
      FundNotNegative(l);
    }
    PayoutAddsShares(old(l.db), l.db, post, f.comments[c].net, f.total, printRate);
    f.CloseRewards(c);
    ok := true;
  }

  lemma FundNotNegative(l: Ledger)
    requires l.Valid()
    ensures l.db.rewardFund >= 0 && InOrder(l.db)
  {
  }

  /** process_comment_cashout: afterwards exactly the comments that were due have been paid out, and the
      ledger and the reward sums are exact again. When a payout fails, the block is given up. */
  method ProcessCashouts(l: Ledger, f: Forum, posts: map<Id, Post>, printRate: nat)
    returns (ok: bool, ghost trail: Trail)
    requires l.Valid() && f.Valid() && PostsOk(posts, f.comments, l.db.holders.Keys) && printRate <= HUNDRED_PERCENT
    modifies l, f
    ensures l.Valid() && f.Valid() && l.db.rewardFund >= 0
    ensures ok ==> Progress(old(f.comments), f.comments, Due(old(f.comments), old(l.db).env.now))
    ensures ok ==>
              && PaidInTurn(trail, posts, old(f.comments), printRate)
              && Leads(trail, old(l.db), old(f.total), l.db, f.total, Due(old(f.comments), old(l.db).env.now))
    ensures SharesAdded(old(l.db), l.db)
  {
    hide Counted, SharesAdded, ForestOk, InOrder, Conserved, Closed, PostOk, CommentPaid, PaidInTurn, Leads, Progress,
        IsDue,
        SharesOnly;
    var now := l.db.env.now;
    ghost var done: set<Id> := {};
    trail := Trail([l.db], [f.total], []);
    FundNotNegative(l);
    NothingAdded(l.db);
    NothingDone(f.comments, posts, l.db, f.total, printRate);
    while Due(f.comments, now) != {}
      invariant l.Valid() && f.Valid() && l.db.rewardFund >= 0 && l.db.holders.Keys == old(l.db).holders.Keys
      invariant Progress(old(f.comments), f.comments, done)
      invariant done <= Due(old(f.comments), now) && done !! Due(f.comments, now)
      invariant PaidInTurn(trail, posts, old(f.comments), printRate)
      invariant Leads(trail, old(l.db), old(f.total), l.db, f.total, done) && SharesAdded(old(l.db), l.db)
      decreases |Due(f.comments, now)|
    {
      ghost var before, was, total := f.comments, l.db, f.total;
      var c :| c in Due(f.comments, now);
      SameUntilDone(old(f.comments), before, done, c);
      var paid := CashOut(l, f, c, posts[c], printRate);
      SharesAddedTwice(old(l.db), was, l.db);
      if !paid {
        return false, trail;
      }
      TrailGrows(trail, posts, old(f.comments), printRate, old(l.db), old(f.total), was, total, l.db, f.total, done, c);
      trail := Extended(trail, l.db, f.total, c);
      OneMoreDone(old(f.comments), before, f.comments, done, c, now);
      done := done + {c};
    }
    AllDone(old(f.comments), f.comments, done, now);
    ok := true;
  }

  lemma NothingAdded(s: State)
    ensures SharesAdded(s, s)
  {
  }

  lemma NothingDone(cs: Comments, posts: map<Id, Post>, s: State, total: int, printRate: nat)
    ensures var t := Trail([s], [total], []);
            Progress(cs, cs, {}) && PaidInTurn(t, posts, cs, printRate) && Leads(t, s, total, s, total, {})
  {
  }

  lemma SameUntilDone(start: Comments, before: Comments, done: set<Id>, c: Id)
    requires Progress(start, before, done) && c in before && c !in done
    ensures c in start && start[c].net == before[c].net
  {
    assert before[c] == before[c];
  }

  lemma OneMoreDone(start: Comments, before: Comments, after: Comments, done: set<Id>, c: Id, now: int)
    requires Progress(start, before, done) && c in Due(before, now) && c !in done
    requires SharesOnly(Closed(before, c), after)
    ensures Progress(start, after, done + {c})
    ensures Due(after, now) == Due(before, now) - {c}
    ensures IsDue(start[c], now)
  {
    forall d | d in before
      ensures after[d] == (if d in done + {c} then PaidOut(start[d]) else start[d]).(shares := after[d].shares)
      ensures IsDue(after[d], now) <==> IsDue(before[d], now) && d != c
    {
      assert before[d] == before[d];
    }
    assert after.Keys == before.Keys;
  }

  lemma AllDone(start: Comments, after: Comments, done: set<Id>, now: int)
    requires Progress(start, after, done) && Due(after, now) == {} && done <= Due(start, now)
    ensures done == Due(start, now)
  {
    forall c | c in Due(start, now) ensures c in done {
      assert after[c] == after[c];
      assert c !in Due(after, now);
    }
  }
}
