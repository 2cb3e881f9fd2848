/**
  The list logic of pages/blog/index.tsx: the tag list `getStaticProps` builds from all
  posts (every tag of every post, each once, in ascending string order), the split of the
  posts into the featured one and the regular ones, and the "post"/"posts" label.
 */
module BlogIndex {
  import opened Wrappers
  import opened Text
  import opened Sorting
  import opened Blog

  /** `posts.flatMap(post => post.tags)`. */
  function AllTags(posts: seq<BlogPost>): (r: seq<string>)
    ensures forall t :: t in r <==> exists i :: 0 <= i < |posts| && t in posts[i].tags
  {
    if posts == [] then []
    else
      var rest := AllTags(posts[1..]);
      assert forall i :: 1 <= i < |posts| ==> posts[i] == posts[1..][i - 1];
      assert forall t :: t in rest ==> exists i :: 0 <= i < |posts| && t in posts[i].tags by {
        forall t | t in rest ensures exists i :: 0 <= i < |posts| && t in posts[i].tags {
          var j :| 0 <= j < |posts[1..]| && t in posts[1..][j].tags;
          assert t in posts[j + 1].tags;
        }
      }
      posts[0].tags + rest
  }

  /**
    `Array.from(new Set(s))`: each element of `s` once, at its first occurrence. The
    result holds the same elements, none of them twice.
   */
  function Dedup(s: seq<string>): (r: seq<string>)
    ensures forall x :: x in r <==> x in s
    ensures forall x :: multiset(r)[x] <= 1
  {
    if s == [] then []
    else
      var d := Dedup(s[..|s| - 1]);
      var last := s[|s| - 1];
      assert s == s[..|s| - 1] + [last];
      if last in d then d else d + [last]
  }

  /**
    The order of the default `sort()`: `a` may come first unless `b < a`. Between two
    different strings that is `a < b`.
   */
  predicate AtMost(a: string, b: string)
    ensures a == b ==> AtMost(a, b)
    ensures a != b ==> (AtMost(a, b) <==> Less(a, b))
  {
    LessTotal(a, b);
    LessAsymmetric(a, b);
    !Less(b, a)
  }

  lemma AtMostTotal()
    ensures Total(AtMost)
  {
    forall a: string, b: string ensures AtMost(a, b) || AtMost(b, a) {
      LessAsymmetric(a, b);
    }
  }

  /**
    `uniqueTags`: a tag is listed exactly when some post has it, no tag is listed twice,
    and each tag is strictly smaller than the next.
   */
  function UniqueTags(posts: seq<BlogPost>): (r: seq<string>)
    ensures forall t :: t in r <==> exists i :: 0 <= i < |posts| && t in posts[i].tags
    ensures forall i, j :: 0 <= i < j < |r| ==> r[i] != r[j]
    ensures forall i :: 0 < i < |r| ==> Less(r[i - 1], r[i])
  {
    var all := AllTags(posts);
    var tags := Dedup(all);
    AtMostTotal();
    var r := SortBy(tags, AtMost);
    forall t ensures t in r <==> exists i :: 0 <= i < |posts| && t in posts[i].tags {
      assert t in r <==> t in multiset(tags);
      assert t in tags <==> t in all;
    }
    NoRepeats(r);
    forall i | 0 < i < |r| ensures Less(r[i - 1], r[i]) {
      LessTotal(r[i - 1], r[i]);
    }
    r
  }

  /** `posts.find(post => post.featured)`: the first featured post, if there is one. */
  function FeaturedPost(posts: seq<BlogPost>): (r: Option<BlogPost>)
    ensures r.None? <==> forall i :: 0 <= i < |posts| ==> !posts[i].featured
    ensures r.Some? ==> r.value.featured && r.value in posts
  {
    if posts == [] then None
    else if posts[0].featured then Some(posts[0])
    else
      assert forall i :: 1 <= i < |posts| ==> posts[i] == posts[1..][i - 1];
      FeaturedPost(posts[1..])
  }

  /** The post at `i` is the one shown as featured when no post before it is featured. */
  lemma {:induction false} FeaturedPostIsFirst(posts: seq<BlogPost>, i: int)
    requires 0 <= i < |posts| && posts[i].featured
    requires forall j :: 0 <= j < i ==> !posts[j].featured
    ensures FeaturedPost(posts) == Some(posts[i])
  {
    if i > 0 {
      FeaturedPostIsFirst(posts[1..], i - 1);
    }
  }

  /** `posts.filter(post => !post.featured)`. */
  function RegularPosts(posts: seq<BlogPost>): (r: seq<BlogPost>)
    ensures |r| <= |posts|
    ensures forall p :: p in r <==> p in posts && !p.featured
  {
    if posts == [] then []
    else
      assert posts == [posts[0]] + posts[1..];
      (if posts[0].featured then [] else [posts[0]]) + RegularPosts(posts[1..])
  }

  /** The regular posts keep the listing order: filtering distributes over concatenation. */
  lemma {:induction false} RegularPostsAppend(a: seq<BlogPost>, b: seq<BlogPost>)
    ensures RegularPosts(a + b) == RegularPosts(a) + RegularPosts(b)
  {
    if a == [] {
      assert a + b == b;
    } else {
      assert (a + b)[1..] == a[1..] + b;
      RegularPostsAppend(a[1..], b);
    }
  }

  /**
    A featured post after the first featured one is shown nowhere: the featured slot is
    already decided by the posts before it, and it is not a regular post.
   */
  lemma HiddenFeatured(posts: seq<BlogPost>, first: int, later: int)
    requires 0 <= first < later < |posts|
    requires posts[first].featured && posts[later].featured
    ensures FeaturedPost(posts) == FeaturedPost(posts[..later])
    ensures FeaturedPost(posts).Some?
    ensures posts[later] !in RegularPosts(posts)
  {
    var k := FirstFeatured(posts, first);
    var prefix := posts[..later];
    assert forall j :: 0 <= j <= k ==> prefix[j] == posts[j];
    FeaturedPostIsFirst(prefix, k);
    FeaturedPostIsFirst(posts, k);
  }

  /** Up to any featured position there is a first featured position. */
  lemma {:induction false} FirstFeatured(posts: seq<BlogPost>, i: int) returns (k: int)
    requires 0 <= i < |posts| && posts[i].featured
    ensures 0 <= k <= i && posts[k].featured
    ensures forall j :: 0 <= j < k ==> !posts[j].featured
  {
    if exists j :: 0 <= j < i && posts[j].featured {
      var j :| 0 <= j < i && posts[j].featured;
      k := FirstFeatured(posts, j);
    } else {
      k := i;
    }
  }

  /** `posts.length === 1 ? 'post' : 'posts'`. */
  function CountLabel(n: nat): (word: string)
    ensures word == "post" <==> n == 1
    ensures word == "posts" <==> n != 1
  {
    if n == 1 then "post" else "posts"
  }
}
