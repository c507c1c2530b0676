/** The pieces of a repository card and a blog-post card. */
module Cards {

  import opened JsValues
  import opened Markup

  /** A repository as listed by the GitHub API (only the fields the page uses). */
  datatype Repo = Repo(
    name: string,
    description: Option<string>,
    htmlUrl: string,
    defaultBranch: Option<string>,
    language: Option<string>)

  /** A blog post from the generated Medium feed file. */
  datatype Post = Post(
    title: Option<string>,
    description: Option<string>,
    link: string,
    published: Option<string>,
    thumbnail: Option<string>)

  /**
   * A rendered card: heading, description, the items of its tag list, the
   * link target, the preview image source (if one is added) and whether it is
   * marked `work__box--no-image`.
   */
  datatype Card = Card(
    title: string,
    description: string,
    tags: seq<string>,
    link: string,
    image: Option<string>,
    noImage: bool)

  const GithubUser := "kemalsanli"
  const RawHost := "https://raw.githubusercontent.com/"
  const ImageFile := "SiteImage.png"
  const DefaultBranch := "main"
  const OtherLanguage := "Other"
  const NoRepoDescription := "No description provided."
  const UntitledPost := "Untitled post"
  const MediumTag := "Medium"

  /**
   * The tag list of a repository card: the fetched language names when there
   * are any, else the primary language, else "Other".
   */
  function RepoTags(languages: seq<string>, language: Option<string>): (tags: seq<string>)
    ensures tags != []
    ensures languages != [] ==> tags == languages
    ensures languages == [] && Truthy(language) ==> tags == [language.value]
    ensures languages == [] && !Truthy(language) ==> tags == [OtherLanguage]
  {
    if |languages| > 0 then languages else [OrElse(language, OtherLanguage)]
  }

  /** Every tag is a fetched language, the primary language, or "Other". */
  lemma RepoTagsFrom(languages: seq<string>, language: Option<string>, t: string)
    requires t in RepoTags(languages, language)
    ensures t in languages || language == Some(t) || t == OtherLanguage
  {
  }

  /** The branch the preview image is read from: the default branch, else "main". */
  function Branch(defaultBranch: Option<string>): (b: string)
    ensures b != ""
    ensures Truthy(defaultBranch) ==> b == defaultBranch.value
    ensures !Truthy(defaultBranch) ==> b == DefaultBranch
  {
    OrElse(defaultBranch, DefaultBranch)
  }

  /** The fixed part of every preview URL, up to the repository name. */
  function UrlPrefix(): string
  {
    RawHost + GithubUser + "/"
  }

  /** The fixed part of every preview URL, after the branch. */
  function UrlSuffix(): string
  {
    "/" + ImageFile
  }

  /** The preview image source of a repository card. */
  function PreviewUrl(name: string, defaultBranch: Option<string>): (url: string)
    ensures UrlPrefix() <= url
    ensures |url| >= |UrlPrefix()| + |UrlSuffix()|
    ensures url[|url| - |UrlSuffix()|..] == UrlSuffix()
  {
    UrlPrefix() + name + "/" + Branch(defaultBranch) + UrlSuffix()
  }

  /** The first index of '/' in `s` at or after `i`, or |s|. */
  function SlashIndex(s: string, i: nat): (k: nat)
    requires i <= |s|
    ensures i <= k <= |s|
    ensures k < |s| ==> s[k] == '/'
    ensures forall j :: i <= j < k ==> s[j] != '/'
    decreases |s| - i
  {
    if i == |s| || s[i] == '/' then i else SlashIndex(s, i + 1)
  }

  /** Recovers the repository name and branch from a preview URL. */
  function ParsePreviewUrl(url: string): Option<(string, string)>
  {
    var p := UrlPrefix();
    var q := UrlSuffix();
    if !(p <= url) || |url| < |p| + |q| || url[|url| - |q|..] != q then None
    else
      var middle := url[|p|..|url| - |q|];
      var k := SlashIndex(middle, 0);
      if k == |middle| then None else Some((middle[..k], middle[k + 1..]))
  }

  /**
   * The URL determines the repository name and the branch (after the "main"
   * fallback); repository names never contain '/'.
   */
  lemma PreviewUrlRoundTrip(name: string, defaultBranch: Option<string>)
    requires '/' !in name
    ensures ParsePreviewUrl(PreviewUrl(name, defaultBranch)) == Some((name, Branch(defaultBranch)))
  {
    var url := PreviewUrl(name, defaultBranch);
    var p := UrlPrefix();
    var q := UrlSuffix();
    var b := Branch(defaultBranch);
    assert url == p + (name + "/" + b) + q;
    var middle := url[|p|..|url| - |q|];
    assert middle == name + "/" + b;
    assert middle[|name|] == '/';
    forall j | 0 <= j < |name| ensures middle[j] != '/' {
      assert middle[j] == name[j];
    }
    assert SlashIndex(middle, 0) == |name|;
    assert middle[..|name|] == name;
    assert middle[|name| + 1..] == b;
  }

  /** The fixed parts of the preview URL, written out. */
  lemma UrlTemplate()
    ensures UrlPrefix() == "https://raw.githubusercontent.com/kemalsanli/"
    ensures UrlSuffix() == "/SiteImage.png"
  {
  }

  /** A missing (or empty) default branch falls back to "main". */
  lemma PreviewUrlFallback(name: string)
    ensures PreviewUrl(name, None) == PreviewUrl(name, Some("")) == PreviewUrl(name, Some(DefaultBranch))
    ensures PreviewUrl(name, None) == UrlPrefix() + name + "/main" + UrlSuffix()
  {
    assert Branch(None) == Branch(Some("")) == DefaultBranch;
    assert PreviewUrl(name, None) == UrlPrefix() + name + ("/" + DefaultBranch) + UrlSuffix();
  }

  /** The date tag of a post card: the locale-formatted date when there is one, else "Medium". */
  function DateTag(published: Option<string>, localeDate: string -> string): (tag: string)
    ensures !Truthy(published) ==> tag == MediumTag
    ensures Truthy(published) ==> tag == localeDate(published.value)
  {
    if Truthy(published) then localeDate(published.value) else MediumTag
  }

  /** `renderRepo` on a repository and the language names fetched for it. */
  function RenderRepo(repo: Repo, languages: seq<string>): (c: Card)
    ensures c.title == repo.name && c.link == repo.htmlUrl
    ensures c.description != "" && (Truthy(repo.description) ==> c.description == repo.description.value)
    ensures !Truthy(repo.description) ==> c.description == NoRepoDescription
    ensures c.tags == RepoTags(languages, repo.language)
    ensures c.image == Some(PreviewUrl(repo.name, repo.defaultBranch)) && !c.noImage
    ensures WellFormed(c)
  {
    Card(repo.name, OrElse(repo.description, NoRepoDescription), RepoTags(languages, repo.language),
         repo.htmlUrl, Some(PreviewUrl(repo.name, repo.defaultBranch)), false)
  }

  /** `renderBlogPost` on a post; `localeDate` stands for `toLocaleDateString`. */
  function RenderPost(post: Post, localeDate: string -> string): (c: Card)
    ensures c.title != "" && (Truthy(post.title) ==> c.title == post.title.value)
    ensures !Truthy(post.title) ==> c.title == UntitledPost
    ensures c.description == Excerpt(post.description)
    ensures c.tags == [DateTag(post.published, localeDate)]
    ensures c.link == post.link
    ensures c.noImage <==> !Truthy(post.thumbnail)
    ensures c.image == (if Truthy(post.thumbnail) then post.thumbnail else None)
    ensures WellFormed(c)
  {
    var hasThumbnail := Truthy(post.thumbnail);
    Card(OrElse(post.title, UntitledPost), Excerpt(post.description),
         [DateTag(post.published, localeDate)], post.link,
         if hasThumbnail then post.thumbnail else None, !hasThumbnail)
  }

  /** What every card promises: a tag, and an image exactly when not marked no-image. */
  predicate WellFormed(c: Card)
  {
    c.tags != [] && (c.noImage <==> c.image.None?)
  }
}
