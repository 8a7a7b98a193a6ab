/** `organizeComments` of the comments section: a two-pass builder that turns
    the flat comment list into threads.

    The source builds one node object per comment id and pushes node
    references into `replies` lists, so a node is identified by its id. The
    model keeps the same shape: `nodes` maps each id to its node's comment,
    `replies` maps each id to the ids pushed onto that node's `replies`, and
    `top` lists the ids of the top-level nodes. */
module CommentThreads {
  import opened Wrappers
  import opened Content

  /** The ids of the comments that `keep` selects, in input order. */
  function IdsWhere(cs: seq<Comment>, keep: Comment -> bool): (r: seq<string>)
    ensures |r| <= |cs|
  {
    if cs == [] then []
    else
      var last := cs[|cs| - 1];
      IdsWhere(cs[..|cs| - 1], keep) + (if keep(last) then [last.id] else [])
  }

  predicate IsTopLevel(c: Comment) { !HasParent(c) }

  predicate IsReplyTo(c: Comment, p: string) { HasParent(c) && c.parentId.value == p }

  /** Ids of the comments without a (non-empty) parent id. */
  function TopLevelIds(cs: seq<Comment>): seq<string> {
    IdsWhere(cs, IsTopLevel)
  }

  function RepliesTo(p: string): Comment -> bool {
    c => IsReplyTo(c, p)
  }

  /** Ids of the comments whose parent id is `p`. */
  function ChildIds(cs: seq<Comment>, p: string): seq<string> {
    IdsWhere(cs, RepliesTo(p))
  }

  /** The first pass: one node per id, a later comment replacing an earlier
      one with the same id. */
  function NodesOf(cs: seq<Comment>): (r: map<string, Comment>)
    ensures forall k :: k in r ==> r[k].id == k
  {
    if cs == [] then map[]
    else NodesOf(cs[..|cs| - 1])[cs[|cs| - 1].id := cs[|cs| - 1]]
  }

  predicate DistinctIds(cs: seq<Comment>) {
    forall i, j :: 0 <= i < j < |cs| ==> cs[i].id != cs[j].id
  }

  predicate NoDuplicates(s: seq<string>) {
    forall i, j :: 0 <= i < j < |s| ==> s[i] != s[j]
  }

  /** The first pass: a copy of every comment with an empty reply list,
      keyed by id. */
  method CopyNodes(cs: seq<Comment>) returns (nodes: map<string, Comment>, replies: map<string, seq<string>>)
    ensures nodes == NodesOf(cs)
    ensures replies.Keys == nodes.Keys
    ensures forall p :: p in replies ==> replies[p] == []
  {
    nodes, replies := map[], map[];
    var i := 0;
    while i < |cs|
      invariant 0 <= i <= |cs|
      invariant nodes == NodesOf(cs[..i])
      invariant replies.Keys == nodes.Keys
      invariant forall p :: p in replies ==> replies[p] == []
    {
      assert cs[..i + 1][..i] == cs[..i];
      nodes := nodes[cs[i].id := cs[i]];
      replies := replies[cs[i].id := []];
      i := i + 1;
    }
    assert cs[..|cs|] == cs;
  }

  /** `organizeComments`: after the first pass, the second pushes every
      comment either onto the top-level list or onto its parent's replies,
      if the parent exists. */
  method OrganizeComments(cs: seq<Comment>)
      returns (nodes: map<string, Comment>, replies: map<string, seq<string>>, top: seq<string>)
    ensures nodes == NodesOf(cs)
    ensures replies.Keys == nodes.Keys
    ensures forall p :: p in replies ==> replies[p] == ChildIds(cs, p)
    ensures top == TopLevelIds(cs)
  {
    nodes, replies := CopyNodes(cs);
    var i := 0;
    top := [];
    while i < |cs|
      invariant 0 <= i <= |cs|
      invariant replies.Keys == nodes.Keys
      invariant forall p :: p in replies ==> replies[p] == ChildIds(cs[..i], p)
      invariant top == TopLevelIds(cs[..i])
    {
      ChildIdsStep(cs, i);
      assert cs[..i + 1][..i] == cs[..i];
      replies, top := Attach(nodes, replies, top, cs[i]);
      i := i + 1;
    }
    assert cs[..|cs|] == cs;
  }

  /** One pass of the second loop: `c`'s id goes onto its parent's replies
      when the parent exists, and onto the top-level list when `c` has no
      parent. */
  method Attach(nodes: map<string, Comment>, replies: map<string, seq<string>>, top: seq<string>, c: Comment)
      returns (replies': map<string, seq<string>>, top': seq<string>)
    requires replies.Keys == nodes.Keys
    ensures replies'.Keys == nodes.Keys
    ensures forall q :: q in replies' ==> replies'[q] == replies[q] + (if IsReplyTo(c, q) then [c.id] else [])
    ensures top' == top + (if IsTopLevel(c) then [c.id] else [])
  {
    replies', top' := replies, top;
    if HasParent(c) {
      var p := c.parentId.value;
      if p in nodes {
        replies' := replies'[p := replies'[p] + [c.id]];
      }
    } else {
      top' := top' + [c.id];
    }
  }

  lemma ChildIdsStep(cs: seq<Comment>, i: nat)
    requires i < |cs|
    ensures forall p :: ChildIds(cs[..i + 1], p)
                        == ChildIds(cs[..i], p) + (if IsReplyTo(cs[i], p) then [cs[i].id] else [])
  {
    assert cs[..i + 1][..i] == cs[..i];
    forall p
      ensures ChildIds(cs[..i + 1], p)
              == ChildIds(cs[..i], p) + (if IsReplyTo(cs[i], p) then [cs[i].id] else [])
    {
      assert RepliesTo(p)(cs[i]) == IsReplyTo(cs[i], p);
    }
  }

  lemma {:induction false} IdsWhereMember(cs: seq<Comment>, keep: Comment -> bool, id: string)
    ensures id in IdsWhere(cs, keep) <==> exists i :: 0 <= i < |cs| && cs[i].id == id && keep(cs[i])
  {
    if cs != [] {
      var init := cs[..|cs| - 1];
      IdsWhereMember(init, keep, id);
      if exists i :: 0 <= i < |cs| && cs[i].id == id && keep(cs[i]) {
        var i :| 0 <= i < |cs| && cs[i].id == id && keep(cs[i]);
        if i < |cs| - 1 {
          assert init[i] == cs[i];
        }
      }
      if exists i :: 0 <= i < |init| && init[i].id == id && keep(init[i]) {
        var i :| 0 <= i < |init| && init[i].id == id && keep(init[i]);
        assert cs[i] == init[i];
      }
    }
  }

  lemma {:induction false} IdsWhereNoDuplicates(cs: seq<Comment>, keep: Comment -> bool)
    requires DistinctIds(cs)
    ensures NoDuplicates(IdsWhere(cs, keep))
  {
    if cs != [] {
      var init := cs[..|cs| - 1];
      var last := cs[|cs| - 1];
      IdsWhereNoDuplicates(init, keep);
      assert last.id !in IdsWhere(init, keep) by {
        IdsWhereMember(init, keep, last.id);
      }
    }
  }

  lemma {:induction false} IdsWherePrefix(cs: seq<Comment>, keep: Comment -> bool, n: nat)
    requires n <= |cs|
    ensures IdsWhere(cs[..n], keep) <= IdsWhere(cs, keep)
    decreases |cs|
  {
    if n < |cs| {
      var init := cs[..|cs| - 1];
      assert init[..n] == cs[..n];
      IdsWherePrefix(init, keep, n);
    } else {
      assert cs[..n] == cs;
    }
  }

  /** The selected ids keep the input order. */
  lemma IdsWhereOrder(cs: seq<Comment>, keep: Comment -> bool, i: nat, j: nat)
    requires DistinctIds(cs)
    requires i < j < |cs| && keep(cs[i]) && keep(cs[j])
    ensures exists a, b :: 0 <= a < b < |IdsWhere(cs, keep)|
              && IdsWhere(cs, keep)[a] == cs[i].id && IdsWhere(cs, keep)[b] == cs[j].id
  {
    var before := IdsWhere(cs[..j], keep);
    var upto := IdsWhere(cs[..j + 1], keep);
    assert cs[..j + 1][..j] == cs[..j];
    assert upto == before + [cs[j].id];
    IdsWherePrefix(cs, keep, j + 1);
    IdsWhereMember(cs[..j], keep, cs[i].id);
    assert cs[..j][i] == cs[i];
    var a :| 0 <= a < |before| && before[a] == cs[i].id;
    var all := IdsWhere(cs, keep);
    assert all[a] == upto[a] && all[|before|] == upto[|before|];
  }

  lemma {:induction false} NodesMember(cs: seq<Comment>, k: string)
    ensures k in NodesOf(cs) <==> exists i :: 0 <= i < |cs| && cs[i].id == k
  {
    if cs != [] {
      var init := cs[..|cs| - 1];
      NodesMember(init, k);
      if exists i :: 0 <= i < |cs| && cs[i].id == k {
        var i :| 0 <= i < |cs| && cs[i].id == k;
        if i < |cs| - 1 {
          assert init[i] == cs[i];
        }
      }
      if exists i :: 0 <= i < |init| && init[i].id == k {
        var i :| 0 <= i < |init| && init[i].id == k;
        assert cs[i] == init[i];
      }
    }
  }

  /** With distinct ids every node is the comment it was copied from. */
  lemma {:induction false} NodeIsCopy(cs: seq<Comment>, i: nat)
    requires DistinctIds(cs) && i < |cs|
    ensures cs[i].id in NodesOf(cs) && NodesOf(cs)[cs[i].id] == cs[i]
  {
    var init := cs[..|cs| - 1];
    if i < |cs| - 1 {
      assert init[i] == cs[i];
      NodeIsCopy(init, i);
      assert cs[i].id != cs[|cs| - 1].id;
    }
  }

  /** The top-level list holds exactly the comments without a parent id. */
  lemma TopLevelExactly(cs: seq<Comment>, id: string)
    ensures id in TopLevelIds(cs) <==> exists i :: 0 <= i < |cs| && cs[i].id == id && !HasParent(cs[i])
  {
    IdsWhereMember(cs, IsTopLevel, id);
  }

  /** A reply is attached to its parent's node wherever the parent sits in
      the input, before or after the reply. */
  lemma ReplyAttached(cs: seq<Comment>, i: nat, j: nat)
    requires i < |cs| && j < |cs|
    requires HasParent(cs[i]) && cs[j].id == cs[i].parentId.value
    ensures cs[j].id in NodesOf(cs)
    ensures cs[i].id in ChildIds(cs, cs[j].id)
  {
    NodesMember(cs, cs[j].id);
    IdsWhereMember(cs, RepliesTo(cs[j].id), cs[i].id);
  }

  /** Each parent's replies follow input order. */
  lemma RepliesInOrder(cs: seq<Comment>, p: string, i: nat, j: nat)
    requires DistinctIds(cs)
    requires i < j < |cs| && IsReplyTo(cs[i], p) && IsReplyTo(cs[j], p)
    ensures exists a, b :: 0 <= a < b < |ChildIds(cs, p)|
              && ChildIds(cs, p)[a] == cs[i].id && ChildIds(cs, p)[b] == cs[j].id
  {
    IdsWhereOrder(cs, RepliesTo(p), i, j);
    var a, b :| 0 <= a < b < |IdsWhere(cs, RepliesTo(p))|
      && IdsWhere(cs, RepliesTo(p))[a] == cs[i].id && IdsWhere(cs, RepliesTo(p))[b] == cs[j].id;
    assert ChildIds(cs, p) == IdsWhere(cs, RepliesTo(p));
  }

  /** A comment whose parent id names no comment in the list is neither
      top-level nor anyone's reply. */
  lemma OrphanDropped(cs: seq<Comment>, i: nat, p: string)
    requires DistinctIds(cs) && i < |cs|
    requires HasParent(cs[i]) && forall k :: 0 <= k < |cs| ==> cs[k].id != cs[i].parentId.value
    requires p in NodesOf(cs)
    ensures cs[i].id !in TopLevelIds(cs)
    ensures cs[i].id !in ChildIds(cs, p)
  {
    IdsWhereMember(cs, IsTopLevel, cs[i].id);
    IdsWhereMember(cs, RepliesTo(p), cs[i].id);
    NodesMember(cs, p);
  }

  /** With distinct ids no node is reachable twice: neither list repeats an
      id, a top-level id is nobody's reply, and a reply has one parent. */
  lemma AtMostOnce(cs: seq<Comment>, p: string, q: string, id: string)
    requires DistinctIds(cs)
    ensures NoDuplicates(TopLevelIds(cs)) && NoDuplicates(ChildIds(cs, p))
    ensures id in TopLevelIds(cs) ==> id !in ChildIds(cs, p)
    ensures id in ChildIds(cs, p) && id in ChildIds(cs, q) ==> p == q
  {
    IdsWhereNoDuplicates(cs, IsTopLevel);
    IdsWhereNoDuplicates(cs, RepliesTo(p));
    IdsWhereMember(cs, IsTopLevel, id);
    IdsWhereMember(cs, RepliesTo(p), id);
    IdsWhereMember(cs, RepliesTo(q), id);
  }
}
