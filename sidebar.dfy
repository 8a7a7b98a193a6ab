/** The blog sidebar's lists: featured posts other than the one being read,
    and the first popular tags. */
module Sidebar {
  import opened Wrappers

  const MaxFeatured := 4
  const MaxTags := 8

  datatype SidebarPost = SidebarPost(id: string, slug: string, title: string, createdAt: int)

  /** `post.id !== currentPostId`; with no current post every post differs. */
  predicate IsCurrent(p: SidebarPost, currentPostId: Option<string>) {
    currentPostId.Some? && p.id == currentPostId.value
  }

  /** The posts other than the current one, in order. */
  function Others(posts: seq<SidebarPost>, currentPostId: Option<string>): (r: seq<SidebarPost>)
    ensures |r| <= |posts|
  {
    if posts == [] then []
    else
      var last := posts[|posts| - 1];
      Others(posts[..|posts| - 1], currentPostId) + if IsCurrent(last, currentPostId) then [] else [last]
  }

  function Min(a: int, b: int): int {
    if a < b then a else b
  }

  /** `filteredPosts`: the filter runs before the slice. */
  function Featured(posts: seq<SidebarPost>, currentPostId: Option<string>): (r: seq<SidebarPost>)
    ensures |r| == Min(|Others(posts, currentPostId)|, MaxFeatured)
    ensures r <= Others(posts, currentPostId)
  {
    var others := Others(posts, currentPostId);
    others[..Min(|others|, MaxFeatured)]
  }

  /** `popularTags.slice(0, 8)`. */
  function ShownTags(tags: seq<string>): (r: seq<string>)
    ensures |r| == Min(|tags|, MaxTags) && r <= tags
  {
    tags[..Min(|tags|, MaxTags)]
  }

  /** Which sections render: each one only when its list is non-empty. */
  datatype Sections = Sections(featured: bool, tags: bool)

  function ShownSections(posts: seq<SidebarPost>, tags: seq<string>, currentPostId: Option<string>): (r: Sections)
    ensures r.featured <==> exists k :: 0 <= k < |posts| && !IsCurrent(posts[k], currentPostId)
    ensures r.tags <==> tags != []
  {
    OthersEmpty(posts, currentPostId);
    Sections(Featured(posts, currentPostId) != [], tags != [])
  }

  /** Exactly the posts other than the current one are kept. */
  lemma {:induction false} OthersMember(posts: seq<SidebarPost>, currentPostId: Option<string>, p: SidebarPost)
    ensures p in Others(posts, currentPostId) <==> p in posts && !IsCurrent(p, currentPostId)
  {
    if posts != [] {
      var init := posts[..|posts| - 1];
      OthersMember(init, currentPostId, p);
      assert posts == init + [posts[|posts| - 1]];
    }
  }

  /** The featured list never holds the current post. */
  lemma FeaturedNeverCurrent(posts: seq<SidebarPost>, currentPostId: Option<string>, p: SidebarPost)
    requires p in Featured(posts, currentPostId)
    ensures p in posts && !IsCurrent(p, currentPostId)
  {
    OthersMember(posts, currentPostId, p);
  }

  /** Nothing is kept exactly when every post is the current one. */
  lemma {:induction false} OthersEmpty(posts: seq<SidebarPost>, currentPostId: Option<string>)
    ensures Others(posts, currentPostId) == [] <==> forall k :: 0 <= k < |posts| ==> IsCurrent(posts[k], currentPostId)
  {
    if posts != [] {
      var init := posts[..|posts| - 1];
      OthersEmpty(init, currentPostId);
      assert forall k :: 0 <= k < |init| ==> init[k] == posts[k];
    }
  }

  lemma {:induction false} OthersAppend(posts: seq<SidebarPost>, more: seq<SidebarPost>, currentPostId: Option<string>)
    ensures Others(posts + more, currentPostId) == Others(posts, currentPostId) + Others(more, currentPostId)
    decreases |more|
  {
    if more == [] {
      assert posts + more == posts;
    } else {
      var init := more[..|more| - 1];
      assert (posts + more)[..|posts + more| - 1] == posts + init;
      OthersAppend(posts, init, currentPostId);
    }
  }

  /** Posts after four featured ones never change the list. */
  lemma LaterPostsIgnored(posts: seq<SidebarPost>, more: seq<SidebarPost>, currentPostId: Option<string>)
    requires |Others(posts, currentPostId)| >= MaxFeatured
    ensures Featured(posts + more, currentPostId) == Featured(posts, currentPostId)
  {
    OthersAppend(posts, more, currentPostId);
    var a := Others(posts, currentPostId);
    assert (a + Others(more, currentPostId))[..MaxFeatured] == a[..MaxFeatured];
  }

  /** Because the filter runs first, the current post among the first
      four is replaced by the fifth. */
  lemma CurrentPostReplaced(posts: seq<SidebarPost>, current: string)
    requires |posts| == 5 && posts[0].id == current
    requires forall k :: 1 <= k < 5 ==> posts[k].id != current
    ensures Featured(posts, Some(current)) == posts[1..]
  {
    var c := Some(current);
    assert posts == [posts[0]] + posts[1..];
    OthersAppend([posts[0]], posts[1..], c);
    assert Others([posts[0]], c) == [] by {
      assert [posts[0]][..0] == [];
    }
    OthersKeepsAll(posts[1..], c);
  }

  lemma {:induction false} OthersKeepsAll(posts: seq<SidebarPost>, currentPostId: Option<string>)
    requires forall k :: 0 <= k < |posts| ==> !IsCurrent(posts[k], currentPostId)
    ensures Others(posts, currentPostId) == posts
  {
    if posts != [] {
      OthersKeepsAll(posts[..|posts| - 1], currentPostId);
    }
  }
}
