/** The posts page's client-side logic: the search and filter over the
    loaded posts, the list updates after a delete or a publish, and the
    condition for offering the publish action. */
module PostsList {
  import opened Base
  import opened Seqs
  import opened Domain

  /** The search matches the title or the content, ignoring case. */
  predicate MatchesTerm(p: Post, term: string) {
    Includes(Lower(p.title), Lower(term)) || Includes(Lower(p.content), Lower(term))
  }

  /** The status filter is compared with the lower-cased status as it is. */
  predicate StatusMatches(p: Post, filter: string) {
    Lower(StatusName(p.status)) == filter
  }

  predicate TypeMatches(p: Post, filter: string) {
    Lower(TypeName(p.kind)) == filter
  }

  function BySearch(term: string): Listed -> bool {
    (l: Listed) => MatchesTerm(l.post, term)
  }

  function ByStatus(status: string): Listed -> bool {
    (l: Listed) => StatusMatches(l.post, status)
  }

  function ByType(kind: string): Listed -> bool {
    (l: Listed) => TypeMatches(l.post, kind)
  }

  /** `filterPosts`: the search, then the status filter, then the type
      filter, each applied only when set. */
  function FilterPosts(posts: seq<Listed>, term: string, status: string, kind: string): seq<Listed> {
    var searched := FilterWhen(posts, term != "", BySearch(term));
    var byStatus := FilterWhen(searched, status != "all", ByStatus(status));
    FilterWhen(byStatus, kind != "all", ByType(kind))
  }

  /** The combined condition a post must meet to stay in the list. */
  predicate Kept(l: Listed, term: string, status: string, kind: string) {
    && (term == "" || MatchesTerm(l.post, term))
    && (status == "all" || StatusMatches(l.post, status))
    && (kind == "all" || TypeMatches(l.post, kind))
  }

  /** The three successive filters keep exactly the posts that meet all
      three conditions, in their original order. */
  lemma FilterPostsKeepsExactly(posts: seq<Listed>, term: string, status: string, kind: string)
    ensures FilterPosts(posts, term, status, kind) == Filter(posts, l => Kept(l, term, status, kind))
    ensures IsSubsequence(FilterPosts(posts, term, status, kind), posts)
    ensures forall l :: l in FilterPosts(posts, term, status, kind) <==> l in posts && Kept(l, term, status, kind)
  {
    var f1 := BySearch(term);
    var f2 := ByStatus(status);
    var f3 := ByType(kind);
    var k1 := (l: Listed) => term == "" || MatchesTerm(l.post, term);
    var k2 := (l: Listed) => status == "all" || StatusMatches(l.post, status);
    var k3 := (l: Listed) => kind == "all" || TypeMatches(l.post, kind);
    var k12 := (l: Listed) => k1(l) && k2(l);
    var kept := (l: Listed) => Kept(l, term, status, kind);
    var searched := FilterWhen(posts, term != "", f1);
    FilterWhenIsFilter(posts, term != "", f1, k1);
    var byStatus := FilterWhen(searched, status != "all", f2);
    FilterWhenIsFilter(searched, status != "all", f2, k2);
    FilterFilter(posts, k1, k2, k12);
    FilterWhenIsFilter(byStatus, kind != "all", f3, k3);
    FilterFilter(posts, k12, k3, kept);
    forall l ensures l in Filter(posts, kept) <==> l in posts && kept(l) {
      FilterMembership(posts, kept, l);
    }
  }

  /** With no search and both filters at `all`, every post is shown. */
  lemma FilterPostsIdentity(posts: seq<Listed>)
    ensures FilterPosts(posts, "", "all", "all") == posts
  {
  }

  /** A status filter with an upper-case letter matches no post, because it
      is compared with a lower-cased status without being lower-cased
      itself. */
  lemma UpperCaseStatusFilterMatchesNothing(posts: seq<Listed>, term: string, status: string, kind: string, k: nat)
    requires k < |status| && 'A' <= status[k] <= 'Z' && status != "all"
    ensures FilterPosts(posts, term, status, kind) == []
  {
    FilterPostsKeepsExactly(posts, term, status, kind);
    forall l: Listed | l in posts
      ensures !StatusMatches(l.post, status)
    {
      LowerHasNoUpperCase(StatusName(l.post.status), k);
    }
  }

  /** The list after a successful delete. */
  function RemovePost(posts: seq<Listed>, id: string): (r: seq<Listed>)
    ensures IsSubsequence(r, posts)
    ensures forall l :: l in r <==> l in posts && l.post.id != id
  {
    var keep := (l: Listed) => l.post.id != id;
    forall l ensures l in Filter(posts, keep) <==> l in posts && keep(l) {
      FilterMembership(posts, keep, l);
    }
    Filter(posts, keep)
  }

  /** The list after a successful publish: that post's status only. */
  function MarkPublished(posts: seq<Listed>, id: string): (r: seq<Listed>)
    ensures |r| == |posts|
    ensures forall i :: 0 <= i < |posts| && posts[i].post.id != id ==> r[i] == posts[i]
    ensures forall i :: 0 <= i < |posts| && posts[i].post.id == id ==>
      r[i].post.status == Published && r[i].(post := r[i].post.(status := posts[i].post.status)) == posts[i]
  {
    seq(|posts|, i requires 0 <= i < |posts| =>
      if posts[i].post.id == id then posts[i].(post := posts[i].post.(status := Published)) else posts[i])
  }

  /** The publish action is offered for a post with a business that is not
      yet published. */
  predicate CanPublish(l: Listed) {
    l.business.Some? && l.post.status != Published
  }

  /** Once a post is marked published its publish action disappears, and the
      other posts' actions are as before. */
  lemma PublishHidesAction(posts: seq<Listed>, id: string)
    ensures var r := MarkPublished(posts, id);
      forall i :: 0 <= i < |posts| ==>
        (CanPublish(r[i]) <==> CanPublish(posts[i]) && posts[i].post.id != id)
  {
  }
}
