/** The operations on comments, updating the cached sums in place on the way up to the root. */
module Discussions {
  import opened Common
  import opened TreeSums
  import opened CommentForest

  class Forum {
    var comments: Comments
    var total: nat    // total_reward_shares2

    ghost predicate Valid()
      reads this
    {
      ForestOk(comments, total)
    }

    constructor ()
      ensures Valid() && comments == map[] && total == 0
    {
      hide ForestOk;
      comments, total := map[], 0;
      new;
      NoComments(comments, total);
    }

    /** adjust_rshares2: the comment and all its ancestors replace `was` by `is_`, and so does the total.
        None of the unsigned subtractions underflows. `own` is what the sums shall agree with. */
    method AdjustShares(c: Id, was: nat, is_: nat, ghost own: map<Id, int>)
      requires Shaped(comments) && c in comments && SharesAgree(comments, own, total, Some(c), is_ - was)
      requires was <= comments[c].shares && forall d :: d in own ==> own[d] >= 0
      modifies this
      ensures Shaped(comments) && SharesAgree(comments, own, total, None, 0) && SharesOnly(old(comments), comments)
      ensures total == old(total) - was + is_
      decreases comments[c].depth
    {
      hide SharesAgree;
      SharesMoveUp(comments, own, total, c, was, is_);
      comments := WithShares(comments, c, comments[c].shares - was + is_);
      ParentCovers(comments, own, total, c, was, is_);
      assert comments[c].parent == old(comments)[c].parent;
      if comments[c].depth != 0 {
        AdjustShares(comments[c].parent.value, was, is_, own);
      } else {
        TopSettles(comments, own, total, is_ - was);
        total := total - was + is_;
      }
    }

    /** The effect of a first vote on a comment. */
    method Vote(c: Id, rshares: int) returns (ok: bool)
      requires Valid()
      modifies this
      ensures Valid() && (ok <==> c in old(comments))
      ensures if ok then SharesOnly(WithNet(old(comments), c, old(comments)[c].net + rshares), comments)
              else comments == old(comments) && total == old(total)
    {
      if c !in comments {
        return false;
      }
      SetNet(c, comments[c].net + rshares);
      ok := true;
    }

    /** The effect of a changed vote. */
    method Revote(c: Id, before: int, rshares: int) returns (ok: bool)
      requires Valid()
      modifies this
      ensures Valid() && (ok <==> c in old(comments))
      ensures if ok then SharesOnly(WithNet(old(comments), c, old(comments)[c].net - before + rshares), comments)
              else comments == old(comments) && total == old(total)
    {
      if c !in comments {
        return false;
      }
      SetNet(c, comments[c].net - before + rshares);
      ok := true;
    }

    method SetNet(c: Id, net: int)
      requires Valid() && c in comments
      modifies this
      ensures Valid() && SharesOnly(WithNet(old(comments), c, net), comments)
    {
      hide SharesAgree, CountsAgree, SharesOnly;
      var was := Value(comments[c].net);
      ValueWithinShares(comments, total, c);
      ValueChanges(comments, total, c, Value(net));
      Moved(comments, total, c, net);
      comments := WithNet(comments, c, net);
      ghost var before := comments;
      AdjustShares(c, was, Value(net), Values(comments));
      Settled(before, comments, total);
    }

    /** The part of cashout_comment_helper that ends a comment's rewards: the sums drop its value first, then
        a positive net_rshares is cleared and the comment is never cashed out again. */
    method CloseRewards(c: Id)
      requires Valid() && c in comments
      modifies this
      ensures Valid()
      ensures SharesOnly(Closed(old(comments), c), comments)
      ensures total == old(total) - Value(old(comments)[c].net)
    {
      hide SharesAgree, CountsAgree, Values, Shaped;
      InTables(comments, c);
      Unchanged(Values(comments), c);
      SameShares(comments);
      if comments[c].net > 0 {
        var was := Value(comments[c].net);
        ValueWithinShares(comments, total, c);
        ValueChanges(comments, total, c, 0);
        ValuesNonNegative(comments);
        AdjustShares(c, was, 0, Values(comments)[c := 0]);
      }
      ClosedSettles(old(comments), comments, total, c);
      comments := Closed(comments, c);
    }

    /** A new post or reply, counted at all its ancestors. */
    method Create(c: Id, parent: Option<Id>, cashout: int, producing: bool, repliesAllowed: bool) returns (ok: bool)
      requires Valid()
      modifies this
      ensures Valid() && total == old(total)
      ensures ok <==> c !in old(comments) && (parent.Some? ==>
                && parent.value in old(comments) && repliesAllowed
                && old(comments)[parent.value].depth < if producing then SOFT_MAX_DEPTH else MAX_DEPTH)
      ensures if ok then ChildrenOnly(Joined(old(comments), c, parent, cashout), comments)
              else comments == old(comments)
    {
      hide SharesAgree, CountsAgree, ChildrenOnly, Values, Shaped;
      if c in comments {
        return false;
      }
      var depth := 0;
      if parent.Some? {
        if parent.value !in comments || !repliesAllowed {
          return false;
        }
        if comments[parent.value].depth >= if producing then SOFT_MAX_DEPTH else MAX_DEPTH {
          return false;
        }
        depth := comments[parent.value].depth + 1;
      }
      LeafJoins(comments, total, c, parent, depth, cashout);
      comments := comments[c := Leaf(parent, depth, cashout)];
      NobodyGone(comments);
      AdjustChildren(parent, 1, {});
      NobodyGone(comments);
      ok := true;
    }

    /** delete_comment: only a comment without replies, and never one with a positive value; outside block
        production the latter is silently kept. */
    method Delete(c: Id, producing: bool) returns (ok: bool)
      requires Valid()
      modifies this
      ensures Valid() && total == old(total)
      ensures ok <==> c in old(comments) && old(comments)[c].children == 0 && (producing ==> old(comments)[c].net <= 0)
      ensures if ok && old(comments)[c].net <= 0 then ChildrenOnly(old(comments) - {c}, comments)
              else comments == old(comments)
    {
      hide SharesAgree, CountsAgree, ChildrenOnly, Values, Shaped;
      if c !in comments || comments[c].children != 0 || (producing && comments[c].net > 0) {
        return false;
      }
      ok := true;
      if comments[c].net > 0 {
        return;
      }
      LeafLeaves(comments, total, c);
      ParentKnown(comments, c);
      AdjustChildren(comments[c].parent, -1, {c});
      comments := comments - {c};
    }

    /** The loops that count a reply in or out at every ancestor. `gone` is the comment about to be removed. */
    method AdjustChildren(from: Option<Id>, by_: int, ghost gone: set<Id>)
      requires var cs := comments - gone;
               && Shaped(cs) && CountsAgree(cs, from, by_) && SharesAgree(cs, Values(cs), total, None, 0)
               && (from.Some? ==> from.value in cs)
      modifies this`comments
      ensures ForestOk(comments - gone, total) && ChildrenOnly(old(comments) - gone, comments - gone)
    {
      hide SharesAgree, CountsAgree, Values, Shaped;
      var p := from;
      while p.Some?
        invariant Shaped(comments - gone) && CountsAgree(comments - gone, p, by_)
        invariant ChildrenOnly(old(comments) - gone, comments - gone)
        invariant p.Some? ==> p.value in comments - gone
        decreases if p.Some? then comments[p.value].depth + 1 else 0
      {
        var q := p.value;
        ghost var cs := comments - gone;
        CountMovesUp(cs, q, by_);
        ParentKnown(cs, q);
        var children := comments[q].children + by_;
        comments := WithChildren(comments, q, children);
        assert comments - gone == WithChildren(cs, q, children);
        p := comments[q].parent;
      }
      CountsSettle(old(comments) - gone, comments - gone, total, by_);
    }
  }

  /** A reply's parent exists and is one level up. */
  lemma ParentKnown(cs: Comments, c: Id)
    requires Shaped(cs) && c in cs
    ensures match cs[c].parent case None => true case Some(p) => p != c && p in cs && cs[p].depth < cs[c].depth
  {
  }

  lemma NobodyGone(cs: Comments)
    ensures cs - {} == cs
  {
  }

  function Joined(cs: Comments, c: Id, parent: Option<Id>, cashout: int): Comments
    requires parent.Some? ==> parent.value in cs
  {
    cs[c := Leaf(parent, match parent case None => 0 case Some(p) => cs[p].depth + 1, cashout)]
  }

  lemma SameShares(cs: Comments)
    ensures SharesOnly(cs, cs)
  {
  }

  lemma CountsSettle(a: Comments, b: Comments, total: int, by_: int)
    requires ChildrenOnly(a, b) && Shaped(b) && CountsAgree(b, None, by_) && SharesAgree(a, Values(a), total, None, 0)
    ensures ForestOk(b, total)
  {
    hide NodesAgree, TopAgrees, ParentsOf, Values, SharesOf, Sizes, Ones, Shaped;
    ChildrenOnlyTables(a, b);
    NobodyOwes(ParentsOf(b), Ones(b), Sizes(b), by_);
  }

  lemma ClosedSettles(a: Comments, m: Comments, total: int, c: Id)
    requires c in a && c in m && CountsAgree(a, None, 0) && SharesOnly(a, m) && Shaped(m)
    requires SharesAgree(m, Values(a)[c := 0], total, None, 0)
    ensures ForestOk(Closed(m, c), total) && SharesOnly(Closed(a, c), Closed(m, c))
  {
    hide NodesAgree, TopAgrees, ParentsOf, Values, SharesOf, Sizes, Ones, Shaped;
    SharesOnlyTables(a, m);
    Replaced(m, c, Closed(m, c)[c]);
  }

  function Closed(cs: Comments, c: Id): Comments
    requires c in cs
  {
    cs[c := PaidOut(cs[c])]
  }

  function PaidOut(x: Comment): Comment {
    x.(net := if x.net > 0 then 0 else x.net, cashout := None)
  }

  /** Changing net_rshares leaves the comment owing the difference of its values. */
  lemma Moved(cs: Comments, total: int, c: Id, net: int)
    requires ForestOk(cs, total) && c in cs
    ensures var cs' := WithNet(cs, c, net);
            && Shaped(cs') && CountsAgree(cs', None, 0) && cs'[c].shares == cs[c].shares
            && SharesAgree(cs', Values(cs'), total, Some(c), Value(net) - Value(cs[c].net))
            && forall d :: d in Values(cs') ==> Values(cs')[d] >= 0
  {
    hide NodesAgree, TopAgrees, ParentsOf, Values, SharesOf, Sizes, Ones, Shaped;
    Replaced(cs, c, cs[c].(net := net));
    ValuesNonNegative(WithNet(cs, c, net));
    ValueChanges(cs, total, c, Value(net));
  }

  lemma ValuesNonNegative(cs: Comments)
    ensures forall d :: d in Values(cs) ==> Values(cs)[d] >= 0
  {
  }

  lemma Settled(a: Comments, b: Comments, total: int)
    requires CountsAgree(a, None, 0) && SharesOnly(a, b) && Shaped(b) && SharesAgree(b, Values(a), total, None, 0)
    ensures ForestOk(b, total)
  {
    hide NodesAgree, TopAgrees, ParentsOf, Values, SharesOf, Sizes, Ones, Shaped;
    SharesOnlyTables(a, b);
  }
}
