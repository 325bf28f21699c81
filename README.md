# github-tools landing page: verified model of its script

The github-tools landing page shows a grid of cards, one per configured GitHub
repository or organisation page. Its script (`assets/js/script.js`) does four
things this project models and proves properties about:

- **URL classification** (`api`, `orgp`, `slug`, `ourl`, `resolve`): each
  configured page URL becomes a work item. An organisation page
  (`github.com/orgs/<name>`) becomes an organisation item fetched from
  `https://api.github.com/orgs/<name>`. Any other page becomes a repository
  item whose endpoint comes from rewriting the first `github.com` to
  `api.github.com/repos` and dropping one trailing `/`. Module `Urls` writes
  out JavaScript's first-occurrence `replace` and the two regular expressions
  as searches over the string (leftmost match, greedy `[^/]+`).
- **Attribute escaping** (`attrs`): module `Escape` keeps the five global
  replacements in source order (`&` first). It proves the chain equal to
  escaping each character once, so the output has no raw quote or angle
  bracket, every `&` begins one of the five references, and decoding the
  five references gives back the input.
- **Cache-through fetching** (`read`, `write`, `TTL`, `PREFIX`, `load`,
  `cached`): module `Cache` models local storage as a `Store` object holding a
  map from key to raw entry. Keys are `github-tools:` plus the URL, and entries
  last one hour. Module `Fetch` models `load` (any status outside 200..299 is
  an error) and `cached`, which serves a truthy fresh cache hit without a
  request and otherwise loads and, on success, writes through.
- **Pagination and cards** (`list`, `offset`, `next`, the start-up block, the
  structural decisions of `card` and `ocard`): module `Pager` holds a `Pager`
  object with the list, the offset, the grid of card nodes and whether the
  "Load more" wrapper is hidden; module `Cards` decides each card's homepage
  link, star count and avatar. `next` dispatches at most nine items,
  appending one placeholder per item in list order. The wrapper is hidden
  exactly when every item has been dispatched. Each placeholder settles on
  its own: into its card, or it is removed when its fetch rejects or its
  card builder throws.

JavaScript values are modelled by the `Json` datatype in module `JsValues`,
with JavaScript truthiness and `undefined` as a missing property (`None`).
The clock, the network and whether local storage accepts a write are
parameters: `now`/`later` timestamps in milliseconds, a `Reply` value, and a
boolean `accepted`.

The model follows the code as written, including these details:

- The homepage test is `startsWith('http')`. Any string starting with those four
  letters counts, not only `http://` and `https://` URLs.
- The organisation pattern is not anchored. A URL with further path segments
  after the organisation name (`https://github.com/orgs/acme/repos`) is
  still an organisation page, and so is any URL with `github.com/orgs/x`
  anywhere in it.
- A cache entry is served while `now <= expires`. An entry is still a hit at
  the very millisecond it expires.
- A truthy non-string `homepage` or `blog` makes `startsWith` throw, so that
  card is removed. It does not degrade to a card without a link.
- A card is also removed when a field it turns into a string is a JSON
  object with its own `toString` key, or an array holding one, because that
  conversion throws a `TypeError`.

## Model

| member | source | states |
|---|---|---|
| Urls.FindFrom | assets/js/script.js:103 | the first-occurrence search behind a string-pattern `replace`: the result is a match, no earlier position matches, and None means no match at all |
| Urls.ApiStripsSingleSlash | assets/js/script.js:102-103 | for a URL ending in exactly one `/`, the repository endpoint no longer ends in `/` |
| Urls.ReplaceHostOfPage | assets/js/script.js:103 | on `https://github.com/<rest>` the first `github.com` is the host, so the rewrite gives `https://api.github.com/repos/<rest>` whatever `<rest>` holds |
| Urls.ApiOfRepoPage | assets/js/script.js:101-103 | `https://github.com/<owner>/<name>`, with or without a trailing `/`, maps to `https://api.github.com/repos/<owner>/<name>` |
| Urls.FindOrg | assets/js/script.js:106 | the leftmost position where the organisation pattern matches, or None when it matches nowhere after the start |
| Urls.SlashFreeRun | assets/js/script.js:109 | the greedy `[^/]+` run: it occurs at the position, holds no `/`, and stops only at a `/` or the end |
| Urls.SlashFreeRunUnique | assets/js/script.js:109 | any `/`-free run that stops at a `/` or the end is that run, so the captured group is determined by where it starts |
| Urls.Orgp | assets/js/script.js:105-106 | a URL is an organisation page exactly when the literal `github.com/orgs/` followed by a non-`/` character occurs somewhere in it |
| Urls.Slug | assets/js/script.js:108-109 | non-empty exactly for organisation pages; then it is the maximal `/`-free run after the leftmost match of the literal, otherwise `''` |
| Urls.SlugOfOrgPage | assets/js/script.js:105-112 | `https://github.com/orgs/<name>` (optionally with `/`) is an organisation page, its slug is `<name>` and its endpoint is `https://api.github.com/orgs/<name>` |
| Urls.NoOrgMatchInRepoPage | assets/js/script.js:106 | the organisation pattern matches at no position of a repository page whose owner is not `orgs` |
| Urls.RepoPageIsNotOrg | assets/js/script.js:105-106 | a repository page whose owner is not `orgs` is not an organisation page |
| Escape.Attrs | assets/js/script.js:55-64 | `null`/`undefined` give `''`; otherwise no raw `"`, `'`, `<` or `>`, every `&` begins a reference, and decoding gives the input back |
| Escape.ChainOfChar | assets/js/script.js:58-63 | on one character the five replacements write exactly that character's reference, because `&` is replaced first and no later step touches an earlier step's output |
| Escape.ChainAppend | assets/js/script.js:58-63 | the replacement chain distributes over concatenation |
| Escape.ChainIsEscapeEach | assets/js/script.js:58-63 | the five passes over the string equal one pass escaping character by character |
| Escape.EscapeEachIsSafe | assets/js/script.js:58-63 | the escaped text contains no raw quote, apostrophe or angle bracket |
| Escape.EscapeEachAmpersands | assets/js/script.js:59 | every `&` of the escaped text begins a reference, with no doubled or bare ampersand |
| Escape.UnescapeEscapeEach | assets/js/script.js:58-63 | decoding the escaped text gives back the original |
| Cache.Store.Read | assets/js/script.js:120-131 | `read` returns the payload of a parseable entry under `github-tools:<url>` when `now <= expires`, and otherwise null (missing, unparseable or expired) |
| Cache.Store.Write | assets/js/script.js:133-141 | `write` stores the payload with expiry `now + TTL` under the URL's key and changes no other key; a write storage refuses changes nothing |
| Cache.KeyInjective | assets/js/script.js:118-123 | distinct URLs have distinct storage keys |
| Cache.MissWithoutRecord | assets/js/script.js:123-125 | a missing or unparseable entry is a miss at any time |
| Cache.ReadAfterWrite | assets/js/script.js:116-141 | after a write at `t`, a read of that URL returns the payload up to and including `t + 3600000` and misses afterwards |
| Cache.WriteKeepsOthers | assets/js/script.js:134-141 | a write leaves every other key, and every other URL's read, unchanged |
| Fetch.Load | assets/js/script.js:143-148 | `load` fails on a network error, on a status outside 200..299 (with that status) and on a body that does not parse, and otherwise yields the parsed body |
| Fetch.Cached | assets/js/script.js:150-158 | a truthy fresh hit is returned with no request and no write; otherwise one request is made, its outcome is the result, and only a success is written to the cache |
| Cards.HomeLink | assets/js/script.js:183-184 | the homepage link is shown exactly for a string starting with `http`, as that string; a truthy non-string throws; any other value gives no link |
| Cards.Avatar | assets/js/script.js:186-188 | an avatar is shown exactly when the field is truthy, and it is that field |
| Cards.RepoCard | assets/js/script.js:178-192 | throws exactly on a null payload, a truthy non-string homepage, or a name, description, `html_url`, star count or truthy owner avatar whose string conversion throws; otherwise the star count is the field, or 0 when null/undefined; the link rule is as above; the avatar appears exactly when the owner exists and its `avatar_url` is truthy |
| Cards.OrgCard | assets/js/script.js:210-219 | throws exactly on a null payload, a truthy non-string `blog`, or a title (the first truthy of `login` and `name`), description, `html_url` (or `login` in its fallback) or truthy avatar whose string conversion throws; otherwise the link follows `blog` and the avatar follows a truthy `avatar_url` |
| Pager.Resolve | assets/js/script.js:246-251 | one work item per configured URL, in order: an organisation item for organisation pages and a repository item with the rewritten endpoint for all others |
| Pager.ClassifyOrgPage | assets/js/script.js:249-262 | an organisation page becomes an organisation item fetched from `https://api.github.com/orgs/<name>` |
| Pager.ClassifyRepoPage | assets/js/script.js:249 | a repository page becomes a repository item for `https://api.github.com/repos/<owner>/<name>` |
| Pager.Placeholders | assets/js/script.js:257-259 | one loading node per item of the batch, in batch order |
| Pager.PlaceholdersExtend | assets/js/script.js:254-259 | appending the next slice's placeholders keeps node `k` made for list item `k` |
| Pager.Settle | assets/js/script.js:261-284 | a settled node is never loading; it is removed exactly when the fetch rejects or the builder throws, and otherwise shows the builder's card in the card's colour |
| Pager.Pager.Next | assets/js/script.js:253-289 | `next` advances the offset by the slice length (at most 9, none on an exhausted list), appends one placeholder per sliced item in order, leaves the list alone, and hides the wrapper once the offset reaches the end; it keeps the grid in step with the list |
| Pager.Pager.Boot | assets/js/script.js:302-307 | start-up sets the list to the resolved items, dispatches the first batch, and leaves the wrapper hidden exactly when the list has at most 9 items |
| Pager.Pager.Complete | assets/js/script.js:257-285 | when one node's fetch settles, only that node changes, to what its item's `cached` outcome settles into; the cache changes as `cached` changes it |
| Pager.OffsetAfterCalls | assets/js/script.js:253-255 | after `n` calls of `next` the offset is `min(9n, list length)` |
| Pager.BatchesBounds | assets/js/script.js:254 | the number of batches is the ceiling of the list length over 9 |
| Pager.ExhaustedAfterBatches | assets/js/script.js:253-288 | the list is fully dispatched after exactly `ceil(length/9)` calls and not before; further calls change nothing |
| Pager.LastBatchSize | assets/js/script.js:254 | the last batch holds `length mod 9` items, or 9 when 9 divides the length |

`Urls.ReplaceFirst`, `Urls.StripTrailingSlash`, `Urls.Api`, `Urls.Ourl`,
`Escape.Chain`, `Cache.Lookup`, `Cache.Stored`, `Fetch.IsHit`,
`Fetch.CachedResult`, `Fetch.StoreAfter`, `Cards.OwnerAvatar`, `Cards.Or`,
`JsValues.ToStringThrows`, `Pager.Classify`, `Pager.Endpoint`,
`Pager.Advance` and `Pager.Render` are plain definitions, each of one source
expression. What they compute is stated by the members above that mention
them.

## Left out

- `escape` (lines 48-53) relies on the DOM's text serialisation. The model
  leaves it out, and with it the text of card titles and descriptions. Only
  whether converting them to a string throws is modelled.
- `color`, `rgb` and `hue` (lines 71-99) use randomness and floating point.
  A card's colour is a parameter of `Complete`.
- The HTML markup of `card` and `ocard`, `BTN`, `ICONS` and `skeleton` are
  presentation only. The model keeps only the structural decisions: homepage
  link, star count, avatar, and which string conversions throw. The text of
  titles, descriptions and the `html_url` fallback is not modelled.
- The click handler (line 291), the star counter for the site's own
  repository (lines 295-299) and all `console.error` logging are DOM and
  console I/O.
- The configured page list `URLS` (lines 14-33) is not written into the
  model. `Boot` takes the list as its input, and `Pager.ClassifyOrgPage` and
  `Pager.ClassifyRepoPage` state what each configured entry becomes, since
  every entry has one of those two shapes. `SIZE` (line 11) is the constant
  `Pager.SIZE`.
- Asynchrony: `cached` reads the cache when `next` dispatches an item, and its
  promise settles later, in any order. `Complete` does the read and the
  settlement in one step, on the cache as it is at that moment. The model does
  not capture interleavings, two fetches in flight for the same URL, or the
  start-up sequence running after a click.
- JSON numbers are modelled as integers. `JSON.parse`/`JSON.stringify` are
  left out: an entry is either a parsed record or `Garbage`. A record whose
  `expires` is missing or not a number is not modelled.
- Escape.Attrs: decoding covers the five references only. An HTML parser
  also turns CR and CRLF into LF and replaces U+0000 in attribute values, so
  an input holding those characters does not parse back to itself.
- Escape.Attrs: takes `Option<string>`. The text that `String(str)` makes of a
  non-string value (a number, say) is not modelled. Whether that conversion
  throws is modelled by `JsValues.ToStringThrows` in the card builders.
- Cards.RepoCard: the payload is never `undefined` here, because `cached`
  passes on a parsed body. Properties of numbers, strings, booleans and arrays
  are modelled as `undefined`. This matches JavaScript for every property the
  builders read.
- The redundant hide at line 306 is modelled as written. `Boot` proves it
  agrees with the hide that `next` already performs at line 288.
- JavaScript strings are sequences of UTF-16 code units, while a Dafny
  `string` holds Unicode scalar values. A lone surrogate in a URL or a
  payload cannot be represented. No modelled operation depends on it.
