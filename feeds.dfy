/**
 * The two loaders: `loadLatestRepos` and `loadBlogPosts`, over a container
 * that shows a status text and the cards appended after it. Network results
 * are arguments, already settled.
 */
module Feeds {

  import opened JsValues
  import opened Cards

  /** A settled request: an ok response with its parsed body, or any failure. */
  datatype Fetched<+T> = Loaded(value: T) | Failed

  const LoadingRepos := "Loading latest repositories..."
  const ReposFailed := "Unable to load repositories right now."
  const LoadingPosts := "Loading blog posts..."
  const PostsFailed := "Unable to load blog posts right now."
  const NoPosts := "No blog posts found."

  /** What a container holds: its text and its card children, in order. */
  datatype View = View(text: string, cards: seq<Card>)

  /** The per-repository language lookup: the keys of the response, or [] on failure. */
  function LanguageNames(r: Fetched<seq<string>>): (names: seq<string>)
    ensures r.Failed? ==> names == []
    ensures r.Loaded? ==> names == r.value
  {
    match r
    case Loaded(names) => names
    case Failed => []
  }

  /** `f` applied to the elements of two sequences of equal length, pairwise and in order. */
  function MapPairs<A, B, C>(f: (A, B) -> C, xs: seq<A>, ys: seq<B>): (r: seq<C>)
    requires |xs| == |ys|
    ensures |r| == |xs|
    decreases |xs|
  {
    if xs == [] then []
    else
      var n := |xs| - 1;
      MapPairs(f, xs[..n], ys[..n]) + [f(xs[n], ys[n])]
  }

  /** `f` applied to every element, in order. */
  function MapSeq<A, B>(f: A -> B, s: seq<A>): (r: seq<B>)
    ensures |r| == |s|
    decreases |s|
  {
    if s == [] then [] else MapSeq(f, s[..|s| - 1]) + [f(s[|s| - 1])]
  }

  /** One repository card per repository, card i built from language result i. */
  function RepoCards(repos: seq<Repo>, langs: seq<Fetched<seq<string>>>): (cards: seq<Card>)
    requires |langs| == |repos|
    ensures |cards| == |repos|
  {
    MapPairs((r, l) => RenderRepo(r, LanguageNames(l)), repos, langs)
  }

  /** One post card per post, in order. */
  function PostCards(posts: seq<Post>, localeDate: string -> string): (cards: seq<Card>)
    ensures |cards| == |posts|
  {
    MapSeq(p => RenderPost(p, localeDate), posts)
  }

  /** Element i of the pairwise map is `f` of the two elements i. */
  lemma {:induction false} MapPairsAt<A, B, C>(f: (A, B) -> C, xs: seq<A>, ys: seq<B>)
    requires |xs| == |ys|
    ensures |MapPairs(f, xs, ys)| == |xs|
    ensures forall i :: 0 <= i < |xs| ==> MapPairs(f, xs, ys)[i] == f(xs[i], ys[i])
    decreases |xs|
  {
    if xs != [] {
      var n := |xs| - 1;
      MapPairsAt(f, xs[..n], ys[..n]);
    }
  }

  /** Element i of the mapped sequence is `f` of element i. */
  lemma {:induction false} MapSeqAt<A, B>(f: A -> B, s: seq<A>)
    ensures |MapSeq(f, s)| == |s|
    ensures forall i :: 0 <= i < |s| ==> MapSeq(f, s)[i] == f(s[i])
    decreases |s|
  {
    if s != [] {
      MapSeqAt(f, s[..|s| - 1]);
    }
  }

  /** The repository cards are exactly the rendered repositories, in input order. */
  lemma RepoCardsAt(repos: seq<Repo>, langs: seq<Fetched<seq<string>>>)
    requires |langs| == |repos|
    ensures |RepoCards(repos, langs)| == |repos|
    ensures forall i :: 0 <= i < |repos| ==>
      RepoCards(repos, langs)[i] == RenderRepo(repos[i], LanguageNames(langs[i]))
  {
    MapPairsAt((r, l) => RenderRepo(r, LanguageNames(l)), repos, langs);
  }

  /** The post cards are exactly the rendered posts, in input order. */
  lemma PostCardsAt(posts: seq<Post>, localeDate: string -> string)
    ensures |PostCards(posts, localeDate)| == |posts|
    ensures forall i :: 0 <= i < |posts| ==>
      PostCards(posts, localeDate)[i] == RenderPost(posts[i], localeDate)
  {
    MapSeqAt(p => RenderPost(p, localeDate), posts);
  }

  /** What the repository container ends up holding. */
  function RepoFeed(list: Fetched<seq<Repo>>, langs: seq<Fetched<seq<string>>>): (v: View)
    requires list.Loaded? ==> |langs| == |list.value|
    ensures list.Failed? ==> v == View(ReposFailed, [])
    ensures list.Loaded? ==> v.text == "" && |v.cards| == |list.value|
    ensures v.cards != [] ==> v.text == ""
  {
    match list
    case Failed => View(ReposFailed, [])
    case Loaded(repos) => View("", RepoCards(repos, langs))
  }

  /** The posts of a feed file: `data.posts || []`. */
  function PostsOf(posts: Option<seq<Post>>): (ps: seq<Post>)
    ensures posts.Some? ==> ps == posts.value
    ensures posts.None? ==> ps == []
  {
    match posts
    case Some(ps) => ps
    case None => []
  }

  /** What the blog container ends up holding. */
  function BlogFeed(feed: Fetched<Option<seq<Post>>>, localeDate: string -> string): (v: View)
    ensures feed.Failed? ==> v == View(PostsFailed, [])
    ensures feed.Loaded? && PostsOf(feed.value) == [] ==> v == View(NoPosts, [])
    ensures feed.Loaded? ==> |v.cards| == |PostsOf(feed.value)|
    ensures v.text == "" <==> v.cards != []
  {
    match feed
    case Failed => View(PostsFailed, [])
    case Loaded(posts) =>
      var ps := PostsOf(posts);
      if ps == [] then View(NoPosts, []) else View("", PostCards(ps, localeDate))
  }

  /** A failed repository list shows the failure message and no cards. */
  lemma RepoFeedFailure(langs: seq<Fetched<seq<string>>>)
    ensures RepoFeed(Failed, langs) == View("Unable to load repositories right now.", [])
  {
  }

  /**
   * A loaded list gives one card per repository in list order; a failed
   * language lookup only makes that card fall back to the primary language or
   * "Other", and leaves the other cards alone.
   */
  lemma RepoFeedSuccess(repos: seq<Repo>, langs: seq<Fetched<seq<string>>>)
    requires |langs| == |repos|
    ensures RepoFeed(Loaded(repos), langs).text == ""
    ensures |RepoFeed(Loaded(repos), langs).cards| == |repos|
    ensures forall i :: 0 <= i < |repos| ==>
      RepoFeed(Loaded(repos), langs).cards[i].title == repos[i].name
      && RepoFeed(Loaded(repos), langs).cards[i].tags
         == (if langs[i].Loaded? && langs[i].value != [] then langs[i].value
             else [OrElse(repos[i].language, OtherLanguage)])
  {
    RepoCardsAt(repos, langs);
  }

  /** A failed feed file shows its message; an empty or missing post list shows "No blog posts found.". */
  lemma BlogFeedMessages(posts: Option<seq<Post>>, localeDate: string -> string)
    ensures BlogFeed(Failed, localeDate) == View("Unable to load blog posts right now.", [])
    ensures PostsOf(posts) == [] ==> BlogFeed(Loaded(posts), localeDate) == View("No blog posts found.", [])
    ensures posts == None ==> BlogFeed(Loaded(posts), localeDate) == View("No blog posts found.", [])
  {
  }

  /** A non-empty post list gives one card per post, in order, and no status text. */
  lemma BlogFeedSuccess(posts: seq<Post>, localeDate: string -> string)
    requires posts != []
    ensures BlogFeed(Loaded(Some(posts)), localeDate).text == ""
    ensures |BlogFeed(Loaded(Some(posts)), localeDate).cards| == |posts|
    ensures forall i :: 0 <= i < |posts| ==>
      BlogFeed(Loaded(Some(posts)), localeDate).cards[i] == RenderPost(posts[i], localeDate)
  {
    PostCardsAt(posts, localeDate);
  }

  /** Every card in either container has a tag and an image unless marked no-image. */
  lemma FeedCardsWellFormed(list: Fetched<seq<Repo>>, langs: seq<Fetched<seq<string>>>,
                            feed: Fetched<Option<seq<Post>>>, localeDate: string -> string)
    requires list.Loaded? ==> |langs| == |list.value|
    ensures forall c :: c in RepoFeed(list, langs).cards ==> WellFormed(c)
    ensures forall c :: c in BlogFeed(feed, localeDate).cards ==> WellFormed(c)
  {
    if list.Loaded? {
      RepoCardsAt(list.value, langs);
    }
    if feed.Loaded? && PostsOf(feed.value) != [] {
      var ps := PostsOf(feed.value);
      PostCardsAt(ps, localeDate);
    }
  }

  /** A page element that cards are appended to. */
  class Container {
    var text: string
    var cards: seq<Card>

    function Current(): View
      reads this
    {
      View(text, cards)
    }

    constructor (text: string)
      ensures Current() == View(text, [])
    {
      this.text := text;
      cards := [];
    }

    /** Assigning `textContent` replaces every child with that text. */
    method SetText(t: string)
      modifies this
      ensures Current() == View(t, [])
    {
      text := t;
      cards := [];
    }

    /** `appendChild` of a card. */
    method Append(c: Card)
      modifies this
      ensures Current() == View(old(text), old(cards) + [c])
    {
      cards := cards + [c];
    }
  }

  /** `loadLatestRepos`; a missing container is left alone. */
  method LoadLatestRepos(container: Container?, list: Fetched<seq<Repo>>, langs: seq<Fetched<seq<string>>>)
    requires list.Loaded? ==> |langs| == |list.value|
    modifies container
    ensures container != null ==> container.Current() == RepoFeed(list, langs)
  {
    if container == null {
      return;
    }
    container.SetText(LoadingRepos);
    if list.Failed? {
      container.SetText(ReposFailed);
      return;
    }
    var repos := list.value;
    container.SetText("");
    var i := 0;
    while i < |repos|
      invariant 0 <= i <= |repos|
      invariant container.Current() == View("", RepoCards(repos[..i], langs[..i]))
    {
      container.Append(RenderRepo(repos[i], LanguageNames(langs[i])));
      assert repos[..i + 1][..i] == repos[..i];
      assert langs[..i + 1][..i] == langs[..i];
      i := i + 1;
    }
    assert repos[..i] == repos && langs[..i] == langs;
  }

  /** `loadBlogPosts`; a missing container is left alone. */
  method LoadBlogPosts(container: Container?, feed: Fetched<Option<seq<Post>>>, localeDate: string -> string)
    modifies container
    ensures container != null ==> container.Current() == BlogFeed(feed, localeDate)
  {
    if container == null {
      return;
    }
    container.SetText(LoadingPosts);
    if feed.Failed? {
      container.SetText(PostsFailed);
      return;
    }
    var posts := PostsOf(feed.value);
    container.SetText("");
    var i := 0;
    while i < |posts|
      invariant 0 <= i <= |posts|
      invariant container.Current() == View("", PostCards(posts[..i], localeDate))
    {
      container.Append(RenderPost(posts[i], localeDate));
      assert posts[..i + 1][..i] == posts[..i];
      i := i + 1;
    }
    assert posts[..i] == posts;
    if |posts| == 0 {
      container.SetText(NoPosts);
    }
  }
}
