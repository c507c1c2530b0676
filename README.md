# Portfolio page script (kemalsanli.github.io `index.js`), modelled in Dafny

The page script does four things, and each is modelled as abstract state and
pure functions instead of DOM calls:

- **Focus mode** (`focus.dfy`, module `FocusMode`): the two global listeners
  `handleFirstTab` / `handleMouseDownOnce` form a two-state machine. The state
  records which listener is attached and whether `document.body` carries the
  `user-is-tabbing` class. `Step` is the reference transition function.
  `FocusDetector` is the page's state as a class, with one method per event.
- **Back-to-top button** (`back_to_top.dfy`, module `BackToTop`): the scroll
  handler sets `isBackToTopRendered` from the threshold `scrollY > 700`, and
  `alterStyles` derives visibility, opacity and transform from that flag.
- **Card construction** (`markup.dfy`, `cards.dfy`): the regular expression
  `/<[^>]+>/g` as a left-to-right scanner `StripTags`; the 180-character
  excerpt; the repository tag list; the preview-image URL with its "main"
  fallback, and a parser that recovers name and branch from it; the
  "Medium" date fallback; the no-image mark; the whole card of each kind.
- **Feed loaders** (`feeds.dfy`, module `Feeds`): a container is a status
  text plus a sequence of cards. Assigning the text removes every card,
  because assigning `textContent` replaces all children. The loaders are
  methods over a nullable container. The settled network results are their
  arguments: the list is loaded or failed, and each language lookup is
  loaded or failed. Each loader is proved against a function that gives the
  container's final contents (`RepoFeed`, `BlogFeed`).

`js_values.dfy` holds the optional JSON field and JavaScript's `||` on strings,
where a missing field, `null` and `""` are all falsy.

Three details of the code that the model follows:

- The marker class goes on `document.body`.
- Language names keep the order of the keys in the lookup response.
- A post without a description gets an empty description, not a placeholder text.

## Model

| member | source | states |
|---|---|---|
| `JsValues.OrElse` | index.js:64 | The JavaScript or-operator on a string field gives the value when it is present and non-empty, else the fallback. It is never empty when the fallback is not. |
| `FocusMode.Step` | index.js:5-20 | One event keeps the marker tied to the attached listener. A mousedown while watching for Tab changes nothing, and so does any keydown while watching for mousedown. |
| `FocusMode.Run` | index.js:5-22 | A sequence of events either changes nothing or leaves the marker tied to the attached listener, even from a state that was not consistent. |
| `FocusMode.TabSetsMarker` | index.js:6-10 | Tab while watching for Tab adds the marker and attaches the mousedown listener. |
| `FocusMode.OtherKeyIgnored` | index.js:6 | Any key other than Tab while watching for Tab changes nothing. |
| `FocusMode.MouseDownClearsMarker` | index.js:15-20 | A mousedown while watching for mousedown removes the marker and makes keydown the watched event again. |
| `FocusMode.RunKeepsConsistent` | index.js:5-22 | Every event sequence from a consistent state ends in a consistent state: `tabbing` holds exactly while watching for mousedown. |
| `FocusMode.ReachableConsistent` | index.js:22 | Every state reachable from the load-time state (keydown listener only, no marker) is consistent. |
| `FocusMode.KeysAfterTabIgnored` | index.js:9-10 | After the first Tab, later keydowns, Tab or not, leave the marker on and the mousedown listener attached. |
| `FocusMode.MouseDownsBeforeTabIgnored` | index.js:10-22 | Mousedowns before any Tab leave the load-time state as it was. |
| `FocusMode.FocusDetector.constructor` | index.js:22 | At load only the keydown listener is attached and the marker is absent. |
| `FocusMode.FocusDetector.OnKeyDown` | index.js:5-13 | A keydown changes the state as `Step` says and keeps the marker/listener invariant. |
| `FocusMode.FocusDetector.OnMouseDown` | index.js:15-20 | A mousedown changes the state as `Step` says and keeps the marker/listener invariant. |
| `BackToTop.AlterStyles` | index.js:27-33 | The three style values always agree with each other ("visible"/1/"scale(1)" or "hidden"/0/"scale(0)"). Reading visibility back gives the flag. |
| `BackToTop.Scroll` | index.js:24-43 | After a scroll the flag is `scrollY > 700`. With the element present, the written styles agree with the flag. Without it (`querySelector` gave null), the style write throws and the styles stay as they were. |
| `BackToTop.ThresholdBoundary` | index.js:36 | With the element present, an offset of exactly 700 hides the button and every offset above 700 shows it. |
| `BackToTop.ScrollMonotone` | index.js:36 | If the button is shown at some offset, it is shown at every larger offset. |
| `BackToTop.ScrollIdempotent` | index.js:35-43 | A second scroll on the same side of 700, at the same offset or any other, leaves the state unchanged. |
| `BackToTop.RunScrolls` | index.js:35-43 | After a sequence of scroll events the flag follows the last offset alone. No events leave the state as it was. |
| `BackToTop.RunScrollsKeepsStyles` | index.js:24-28 | Without the element, no sequence of scroll events changes the styles. |
| `BackToTop.MissingButtonNoStyles` | index.js:24-28 | Without the element, no style is ever written after load. The flag still follows the last scroll offset. |
| `BackToTop.BackToTopButton.constructor` | index.js:24-25 | At load the element may or may not exist, the flag is false and no style has been written. |
| `BackToTop.BackToTopButton.OnScroll` | index.js:35-43 | The scroll listener leaves the state that `Scroll` gives for whether the element is present. |
| `Markup.CloseIndex` | index.js:179 | The index found lies between the start position and the end of the text, and holds '>' when it is not the end. |
| `Markup.CloseIndexFirst` | index.js:179 | No '>' lies before the index that `CloseIndex` finds, so it is the first '>'. |
| `Markup.TagLength` | index.js:179 | A match is at least three characters long, fits in the text, starts with '<' and ends with '>'. |
| `Markup.TagLengthMatches` | index.js:179 | A match of `<[^>]+>` is found exactly when one starts here: a '<', then a character other than '>', then a later '>'. The match ends at the first '>'. |
| `Markup.StripTags` | index.js:179 | Stripping tags never makes the text longer. |
| `Markup.StripTagsKeepsChars` | index.js:179 | Every character of the stripped text also occurs in the input. |
| `Markup.CleanUnchanged` | index.js:179 | Text in which no match starts is returned unchanged. |
| `Markup.NoOpenBracketUnchanged` | index.js:179 | Text containing no '<' is returned unchanged. |
| `Markup.StripTagsClean` | index.js:179 | No match of the pattern starts anywhere in the result. |
| `Markup.StripTagsIdempotent` | index.js:179 | Stripping twice gives the same text as stripping once. |
| `Markup.CloseIndexNone` | index.js:179 | When no '>' follows a position, the search for '>' runs to the end of the text. |
| `Markup.CloseIndexTail` | index.js:179 | Appending a tail without '>' does not change which '>' is found in the text before it. |
| `Markup.NoCloseBracketClean` | index.js:179 | Text without '>' contains no tag. |
| `Markup.BareBracketsKept` | index.js:179 | A bare "<>" is kept whatever follows it: stripping "<>" + s gives "<>" + stripping s. |
| `Markup.UnclosedTailKept` | index.js:179 | A '<' with no later '>' is kept: a tail without '>' comes through unchanged after whatever precedes it. |
| `Markup.UnmatchedBracketsKept` | index.js:179 | Three examples: "<>" and "a<b" are kept, and "<b>x</b>" becomes "x". |
| `Markup.Excerpt` | index.js:178-180 | A missing or empty description gives "". Any other description gives between 3 and 183 characters. |
| `Markup.ExcerptShape` | index.js:178-180 | A present description gives a prefix of its stripped text of length min(180, its length), followed by "...", even when the text is short. |
| `Markup.ExcerptOfLongText` | index.js:179 | Stripped text longer than 180 characters gives exactly its first 180 characters followed by "...". |
| `Cards.RepoTags` | index.js:68 | The tags are never empty. They are the fetched languages if there are any, else the primary language if it is set, else "Other". |
| `Cards.RepoTagsFrom` | index.js:68-73 | Every tag is a fetched language, the primary language or "Other". |
| `Cards.Branch` | index.js:108 | The branch is never empty. It is the default branch when that is set and non-empty, and "main" otherwise. |
| `Cards.PreviewUrl` | index.js:109 | The URL starts with `https://raw.githubusercontent.com/kemalsanli/` and ends with `/SiteImage.png`. |
| `Cards.PreviewUrlRoundTrip` | index.js:108-109 | The URL can be parsed back into the repository name and the branch after the fallback. |
| `Cards.UrlTemplate` | index.js:109 | The fixed parts of the URL are `https://raw.githubusercontent.com/kemalsanli/` before the name and `/SiteImage.png` after the branch. |
| `Cards.PreviewUrlFallback` | index.js:108-109 | A missing or empty default branch gives the same URL as "main", that is `<prefix><name>/main<suffix>`. |
| `Cards.DateTag` | index.js:185 | The date tag is the locale-formatted publish date when there is one, else "Medium". |
| `Cards.RenderRepo` | index.js:53-118 | The card has the repository's name and link, its description or "No description provided.", the tags from `RepoTags`, the preview URL, and no no-image mark. |
| `Cards.RenderPost` | index.js:167-224 | The card has the title or "Untitled post", the excerpt, exactly one date tag and the post link. It has the thumbnail image, or the no-image mark when there is no thumbnail. |
| `Feeds.LanguageNames` | index.js:139-147 | A failed language lookup gives [] and a loaded one gives its names. |
| `Feeds.MapPairsAt` | index.js:151 | Element i of a pairwise map is the function applied to the two elements i. |
| `Feeds.MapSeqAt` | index.js:238 | Element i of a map is the function applied to element i. |
| `Feeds.RepoCards` | index.js:151 | The `forEach` at this line renders exactly one card per repository. |
| `Feeds.PostCards` | index.js:238 | The `forEach` at this line renders exactly one card per post. |
| `Feeds.RepoCardsAt` | index.js:151 | There is one card per repository. Card i is repository i rendered with language result i. |
| `Feeds.PostCardsAt` | index.js:238 | There is one card per post. Card i is post i rendered. |
| `Feeds.RepoFeedFailure` | index.js:128-155 | A failed list leaves "Unable to load repositories right now." and no cards. |
| `Feeds.RepoFeedSuccess` | index.js:134-151 | A loaded list leaves empty text and N cards in list order. Card i's tags are language result i when it is loaded and non-empty, else the primary language or "Other". |
| `Feeds.BlogFeedMessages` | index.js:231-245 | A failed feed leaves "Unable to load blog posts right now.". A missing or empty `posts` leaves "No blog posts found.". Neither leaves any card. |
| `Feeds.BlogFeedSuccess` | index.js:235-238 | A non-empty post list leaves empty text and one card per post, in order. |
| `Feeds.FeedCardsWellFormed` | index.js:206-221 | Every card in either container has at least one tag. It has an image exactly when it is not marked no-image. |
| `Feeds.RepoFeed` | index.js:125-155 | A failed list gives the failure text and no cards. A loaded list gives empty text and one card per repository. Cards never sit beside a status text. |
| `Feeds.PostsOf` | index.js:235 | The `posts` field falls back to an empty list: the posts when the field is present, else none. |
| `Feeds.BlogFeed` | index.js:229-245 | A failed feed gives its text and no cards. An empty or missing list gives "No blog posts found.". Otherwise there is one card per post. The container shows a status text exactly when it has no cards. |
| `Feeds.Container.constructor` | index.js:49 | A container found on the page starts with its given text and no cards. |
| `Feeds.Container.SetText` | index.js:125 | Assigning the text removes every card. |
| `Feeds.Container.Append` | index.js:117 | Appending keeps the text and adds the card at the end. |
| `Feeds.LoadLatestRepos` | index.js:120-156 | A missing container is left alone. Otherwise the container ends up holding `RepoFeed` of the settled results. |
| `Feeds.LoadBlogPosts` | index.js:226-247 | A missing container is left alone. Otherwise the container ends up holding `BlogFeed` of the settled feed. |

## Left out

- `fetch`, `response.json()` and the endpoint URLs are network I/O. Their settled outcomes are the loaders' arguments. A body that does not have the expected shape (a list that is not an array, a `posts` that is not an array) and the exception it would raise are not modelled.
- `Promise.all` and async scheduling are left out. The language results arrive as one complete sequence aligned with the repositories, so `LoadLatestRepos` requires equal lengths when the list loaded. The intermediate "Loading ..." texts are written but not observable in the final state.
- Element construction details are left out: class names, `alt` texts, the `title` attribute, the arrow span and the GitHub icon. The link target is kept once, as the card's link: `repo.html_url`, which both the text link and the icon link of a repository card use, or `post.link`. A card keeps only its title, description, tags, link, image source and no-image mark.
- `img.onerror` is an asynchronous, best-effort browser callback, on repository previews and on post thumbnails alike. When the image fails to load, it would mark the card no-image and remove its image box. Cards are built as the synchronous code leaves them: with their image and without that mark.
- `toLocaleDateString()` depends on the locale. It is the parameter `localeDate`. `Date.now()` only feeds the cache-busting query and is not modelled.
- `console.error` logging and the real CSS writes are left out. The button state holds the three abstract style values.
- Markup.Excerpt: `slice(0, 180)` counts UTF-16 code units; the model counts Dafny characters, so text with characters outside the Basic Multilingual Plane can be cut at a different place.
- `innerHTML` parsing is left out. The excerpt is kept as the string assigned, and parsing it as markup is browser behaviour. This is also where a feed that is not trusted could inject markup.
- The exception a scroll event throws when the button element is missing is not modelled beyond its effect: the flag is assigned and no style is written.
- `scrollY` is a browser double. It is modelled as a `real`, because it is only compared with 700.
