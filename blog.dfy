/**
  lib/blog.ts: the posts are the ".mdx" files of data/posts. A file's slug is its name
  without the ".mdx" suffix; its front matter supplies the post's fields, with `tags`
  defaulting to `[]` and `featured` to false; the listing is sorted newest first.
 */
module Blog {
  import opened Wrappers
  import opened Text
  import opened Sorting

  const Extension := ".mdx"

  /** `fileName.endsWith('.mdx')`: the name is some stem followed by ".mdx". */
  predicate IsMdx(name: string)
    ensures IsMdx(name) ==> |name| >= |Extension| && name == name[..|name| - |Extension|] + Extension
  {
    EndsWith(name, Extension)
  }

  /**
    `fileName.replace(/\.mdx$/, '')`: the suffix ".mdx" is removed when it ends the
    name, and the name is kept as it is otherwise.
   */
  function StripMdx(name: string): (slug: string)
    ensures IsMdx(name) ==> slug + Extension == name
    ensures !IsMdx(name) ==> slug == name
  {
    if IsMdx(name) then name[..|name| - |Extension|] else name
  }

  /** Stripping undoes appending: the slug of `slug + ".mdx"` is `slug`. */
  lemma StripAppended(slug: string)
    ensures IsMdx(slug + Extension)
    ensures StripMdx(slug + Extension) == slug
  {
    assert (slug + Extension)[|slug|..] == Extension;
    assert (slug + Extension)[..|slug|] == slug;
  }

  /** The file names that end in ".mdx", in listing order. */
  function MdxFiles(names: seq<string>): (r: seq<string>)
    ensures |r| <= |names|
    ensures forall n :: n in r <==> n in names && IsMdx(n)
  {
    if names == [] then []
    else
      assert names == [names[0]] + names[1..];
      (if IsMdx(names[0]) then [names[0]] else []) + MdxFiles(names[1..])
  }

  /** Filtering keeps the listing order: it distributes over concatenation. */
  lemma {:induction false} MdxFilesAppend(a: seq<string>, b: seq<string>)
    ensures MdxFiles(a + b) == MdxFiles(a) + MdxFiles(b)
  {
    if a == [] {
      assert a + b == b;
    } else {
      assert (a + b)[1..] == a[1..] + b;
      MdxFilesAppend(a[1..], b);
    }
  }

  /** The slug of each name, position by position. */
  function Slugs(names: seq<string>): (r: seq<string>)
    ensures |r| == |names|
    ensures forall i :: 0 <= i < |names| ==> r[i] == StripMdx(names[i])
  {
    if names == [] then [] else [StripMdx(names[0])] + Slugs(names[1..])
  }

  /**
    `getBlogSlugs()` over the directory listing `names`: one slug per ".mdx" file, in
    listing order, that slug plus ".mdx" being the file's name; a string is a slug
    exactly when that string plus ".mdx" is listed.
   */
  function GetBlogSlugs(names: seq<string>): (r: seq<string>)
    ensures |r| == |MdxFiles(names)|
    ensures forall i :: 0 <= i < |r| ==> r[i] + Extension == MdxFiles(names)[i]
    ensures forall s :: s in r <==> s + Extension in names
  {
    var mdx := MdxFiles(names);
    var r := Slugs(mdx);
    forall s ensures s in r <==> s + Extension in names {
      StripAppended(s);
      if s in r {
        var i :| 0 <= i < |r| && r[i] == s;
        assert mdx[i] in mdx;
      }
    }
    r
  }

  /**
    The front matter of a post file as gray-matter returns it. `tags` and `featured` may
    be missing; any other value of `featured` than `true` counts as not featured.
   */
  datatype Matter = Matter(title: string, date: string, excerpt: string, tags: Option<seq<string>>,
                           author: string, featured: Option<bool>, content: string)

  datatype BlogPost = BlogPost(slug: string, title: string, date: string, excerpt: string,
                               tags: seq<string>, author: string, featured: bool, content: string)

  /** The object both loaders build: `tags || []` and `featured || false`. */
  function ToPost(slug: string, m: Matter): (p: BlogPost)
    ensures p.slug == slug && p.date == m.date && p.content == m.content
    ensures p.title == m.title && p.excerpt == m.excerpt && p.author == m.author
    ensures p.tags == (if m.tags.Some? then m.tags.value else [])
    ensures p.featured <==> m.featured == Some(true)
  {
    BlogPost(slug, m.title, m.date, m.excerpt, if m.tags.Some? then m.tags.value else [],
             m.author, m.featured == Some(true), m.content)
  }

  /** Front matter without tags gives no tags; without `featured: true` the post is not featured. */
  lemma Defaults(slug: string, m: Matter)
    ensures m.tags.None? ==> ToPost(slug, m).tags == []
    ensures m.featured.None? ==> !ToPost(slug, m).featured
  {
  }

  /** The post of each listed file, before sorting. */
  function Posts(mdx: seq<string>, files: map<string, Matter>): (r: seq<BlogPost>)
    requires forall n :: n in mdx ==> n in files
    ensures |r| == |mdx|
    ensures forall i :: 0 <= i < |mdx| ==> r[i] == ToPost(StripMdx(mdx[i]), files[mdx[i]])
  {
    if mdx == [] then []
    else [ToPost(StripMdx(mdx[0]), files[mdx[0]])] + Posts(mdx[1..], files)
  }

  /**
    The comparator `a.date < b.date ? 1 : -1`: `a` may come first unless its date is
    smaller. Of two posts with the same date either may come first; of two with different
    dates only the later one.
   */
  predicate NewerFirst(a: BlogPost, b: BlogPost)
    ensures a.date == b.date ==> NewerFirst(a, b)
    ensures a.date != b.date ==> (NewerFirst(a, b) <==> Less(b.date, a.date))
  {
    LessTotal(a.date, b.date);
    LessAsymmetric(a.date, b.date);
    !Less(a.date, b.date)
  }

  lemma NewerFirstTotal()
    ensures Total(NewerFirst)
  {
    forall a: BlogPost, b: BlogPost ensures NewerFirst(a, b) || NewerFirst(b, a) {
      LessAsymmetric(a.date, b.date);
    }
  }

  /**
    `getBlogPosts()` over the directory listing `names` and the front matter `files` of the
    files that read and parse (a file missing from `files` fails, and the failure is not
    caught). On success: one post per ".mdx" file, nothing lost or repeated, each date
    no greater than the one before it.
   */
  function GetBlogPosts(names: seq<string>, files: map<string, Matter>): (r: Option<seq<BlogPost>>)
    ensures r.Some? <==> forall n :: n in names && IsMdx(n) ==> n in files
    ensures r.Some? ==> |r.value| == |MdxFiles(names)|
    ensures r.Some? ==> multiset(r.value) == multiset(Posts(MdxFiles(names), files))
    ensures r.Some? ==> forall i :: 0 < i < |r.value| ==> !Less(r.value[i - 1].date, r.value[i].date)
  {
    var mdx := MdxFiles(names);
    if forall n :: n in mdx ==> n in files then
      NewerFirstTotal();
      Some(SortBy(Posts(mdx, files), NewerFirst))
    else None
  }

  /** `getBlogPost(slug)`: the post of `slug + ".mdx"`, or nothing when that file fails to read or parse. */
  function GetBlogPost(slug: string, files: map<string, Matter>): (r: Option<BlogPost>)
    ensures r.Some? <==> slug + Extension in files
    ensures r.Some? ==> r.value == ToPost(slug, files[slug + Extension])
  {
    if slug + Extension in files then Some(ToPost(slug, files[slug + Extension])) else None
  }

  /** Every post of the listing is what `getBlogPost` returns for its slug. */
  lemma SinglePostAgrees(names: seq<string>, files: map<string, Matter>, p: BlogPost)
    requires GetBlogPosts(names, files).Some? && p in GetBlogPosts(names, files).value
    ensures p.slug + Extension in names
    ensures GetBlogPost(p.slug, files) == Some(p)
  {
    var mdx := MdxFiles(names);
    var posts := Posts(mdx, files);
    assert p in multiset(GetBlogPosts(names, files).value);
    assert p in posts;
    var i :| 0 <= i < |posts| && posts[i] == p;
    assert mdx[i] in mdx;
  }
}
