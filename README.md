# AASS site: form intake and blog listing, modelled in Dafny

This project models the request-handling core of the AASS marketing site, a Next.js
application. The model covers:

- **POST /api/contact** (`pages/api/contact.ts`). It checks the method, applies a
  fixed-window rate limit of 5 requests per 15 minutes per client key, validates the
  four form fields, and trims them. It then tries one e-mail channel (SendGrid or SMTP).
  When no e-mail goes out, it appends the message to `data/messages.json`.
- **POST /api/newsletter** (`pages/api/newsletter.ts`). It runs the same rate limiter
  with a limit of 3 and the same e-mail shape check. Then `saveSubscription` adds a
  lower-cased address to `data/newsletter.json` unless the address is already there in
  any casing.
- **The blog loader** (`lib/blog.ts`). Post slugs come from `.mdx` file names. Front
  matter becomes posts, with `tags` defaulting to `[]` and `featured` to false. Posts
  are sorted newest first. A single post is loaded by its slug.
- **The blog index page** (`pages/blog/index.tsx`). It builds the sorted, duplicate-free
  tag list, picks the featured post and the regular posts, and chooses the "post"/"posts"
  count label.

The model takes the program's own form:

- **Objects and loops are imperative Dafny.**
  - Each endpoint keeps a rate-limit table and a data file that its handler updates in
    place. These are classes: `RateLimiter`, `MessageStore`, `SubscriptionStore`,
    `ContactEndpoint` and `NewsletterEndpoint`.
  - Their methods are proved equal to pure specification functions: `Admit`,
    `SaveMessage`, `Subscribe` and the two `Respond`s.
  - `validateFormData` pushes errors one by one. `find` scans a list. Both are methods
    proved against `FormErrors` and `Find`.
- **Pure code is datatypes, functions and lemmas.** This covers the blog code and the
  e-mail regular expression.

Everything outside the program is an input of the model:

- **Clock readings:** the current time in milliseconds, and the `id` / timestamp strings.
- **Environment variables:** a `Config` record. An unset or empty variable is `""`,
  and both are falsy in JavaScript.
- **E-mail providers:** whether each send call would resolve or throw, in `Providers`.
- **Data directory and writes:** whether the directory is there and whether the write
  succeeds, in `StoreIo`.
- **Contents of a data file:** `Missing`, `Corrupt` (unreadable, or not a JSON array),
  or `Stored` records.
- **Blog files:** the directory listing, plus a map from each file that reads and parses
  to its front matter.

Three behaviours of the code are easy to misread, and the model follows the code:

- **No SMTP retry after SendGrid fails.** The comments "Try SendGrid first" and
  "Fallback to SMTP" (pages/api/contact.ts:97, 113) suggest that SMTP is tried when
  SendGrid fails. In the code, one `try` wraps both branches (pages/api/contact.ts:96-143).
  An exception from SendGrid is caught and makes `sendEmail` return false. SMTP is only
  tried when no SendGrid key is set at all. `ContactDelivery.SendGridFailureIsFinal` states
  this. The handler then falls back to the file.
- **A 500 for a null body.** Reading the properties of a `null` body throws. The handler's
  outer `catch` turns that into 500 "Internal server error" (pages/api/contact.ts:244-248,
  pages/api/newsletter.ts:125-128). Both `Respond`s model this with `NullBody` and state it.
- **Lengths are UTF-16 lengths.** `trim().length` counts UTF-16 code units, so a character
  above the Basic Multilingual Plane counts twice. The length minimums are checked with
  `Text.Utf16Length`.

## Model

| member | source | states |
|---|---|---|
| RateLimit.Admit | pages/api/contact.ts:17-36 | One call of `rateLimit`. The key is admitted exactly when it has no record, its window is over (strictly `now > resetTime`), or its count is below the limit. Only that key's record changes. A refusal changes nothing. |
| RateLimit.AdmitStartsWindow | pages/api/contact.ts:25-28 | A new or expired key is admitted with the record (1, now + 900000). |
| RateLimit.AdmitWithinWindow | pages/api/contact.ts:30-35 | Inside a window, a count at the limit is refused and the table is left as it was. Otherwise the count rises by exactly one and resetTime is kept. |
| RateLimit.AdmitKeepsBounded | pages/api/contact.ts:30-35 | Every count stays between 1 and the limit. |
| RateLimit.ReplayWithinWindow | pages/api/contact.ts:25-35 | A series of calls that all fall inside the current window: the i-th call is admitted exactly when count + i is below the limit. |
| RateLimit.WindowQuota | pages/api/newsletter.ts:12-31 | Take calls no later than 900000 ms after a first call that opens the window. Exactly the first `max` of them are admitted. So with the newsletter limit of 3 the 4th is refused, and with the contact limit of 5 the 6th is refused. |
| RateLimit.RateLimiter.constructor | pages/api/contact.ts:8 | The module-level table starts empty, with the endpoint's limit. |
| RateLimit.RateLimiter.Allow | pages/api/newsletter.ts:12-31 | Updates the table in place as `Admit` describes and returns its answer. It keeps every count within 1..limit. |
| Email.IsEmail | pages/api/newsletter.ts:33-35 | `validateEmail`, the same test as pages/api/contact.ts:52. An accepted address holds no white space and an '@', and has at least five characters. `IsEmailMatchesRegex` ties it to the regular expression. |
| Email.EmailOk | pages/api/newsletter.ts:99 | The address test of both handlers passes: the value is truthy, a string and of the accepted shape. An accepted value is a string of at least five characters that `trim()` leaves unchanged. |
| Email.IsEmailMatchesRegex | pages/api/contact.ts:49-55 | Two descriptions of an accepted address agree. One: no white space, exactly one '@' with a non-empty part before it, and a '.' in the domain that is neither its first nor its last character. The other: the three non-empty runs of `^[^\s@]+@[^\s@]+\.[^\s@]+$`. |
| Email.TrimKeepsEmail | pages/api/newsletter.ts:99-107 | An address that passed the check is unchanged by `trim()`, so trimming after validation is the identity. |
| Text.Trim | pages/api/contact.ts:44 | `trim()` never lengthens the string. The result neither starts nor ends with white space. A string without white space is unchanged. `TrimIsSlice` shows the result is the part between the leading and trailing white space. |
| Text.TrimIsSlice | pages/api/contact.ts:44 | The trim of a string is the slice after its leading white space. Everything before and after that slice is white space. |
| Text.IsSpace | pages/api/contact.ts:52 | The characters that `trim()` removes and that `\s` matches: tab, line feed, vertical tab, form feed, carriage return, space, U+00A0, U+1680, U+2000-U+200A, U+2028, U+2029, U+202F, U+205F, U+3000 and U+FEFF. All of them are in the Basic Multilingual Plane, and neither '@' nor '.' is one of them. |
| Text.Utf16Length | pages/api/contact.ts:44 | `length` counts UTF-16 code units. It lies between the number of characters and twice that, and equals the number of characters when no character is above the Basic Multilingual Plane. |
| Text.Utf16LengthAppend | pages/api/contact.ts:44 | The length of a concatenation is the sum of the lengths. With `Utf16LengthOne` this fixes the count: one per character, two for a character above the Basic Multilingual Plane. |
| Text.ToLower | pages/api/newsletter.ts:66 | `toLowerCase()` keeps the length and lower-cases each character in place. |
| Text.ToLowerIdempotent | pages/api/newsletter.ts:56 | Lower-casing an already lower-cased address changes nothing. |
| Text.Less | lib/blog.ts:48 | String `<`: no string is smaller than itself, and a proper prefix is smaller than the longer string. |
| Text.LessAtFirstDifference | lib/blog.ts:48 | At the first position where two strings differ, the characters there decide `<`. |
| Text.LessTransitive | pages/blog/index.tsx:150 | `<` on strings is transitive. |
| Text.LessTotal | pages/blog/index.tsx:150 | Any two different strings are ordered by `<` one way or the other. |
| ContactValidation.LongEnough | pages/api/contact.ts:41-45 | The name, subject and message test: truthy, a string, and `trim().length` at least the minimum. A value that passes is a string with at least half the minimum in characters. |
| ContactValidation.ErrorList | pages/api/contact.ts:38-77 | Each failing check contributes its own message and no other message appears. The messages follow the order name, e-mail, subject, message, so there are at most four. |
| ContactValidation.FormErrors | pages/api/contact.ts:41-71 | A field's message is present exactly when that field is missing, not a string, too short once trimmed (2 / 3 / 10 UTF-16 code units), or, for the e-mail, of the wrong shape. The list is in field order, has at most four entries, and is empty exactly when all four fields pass. |
| ContactValidation.ValidateFormData | pages/api/contact.ts:38-77 | The push-by-push method returns exactly `FormErrors`, and `isValid` holds exactly when every field passes. |
| ContactValidation.AllFieldsFail | pages/api/contact.ts:41-71 | When all four checks fail, the list is the four messages in field order. |
| ContactValidation.OnlyShortName | pages/api/contact.ts:41-71 | A body with only the name "J" gets all four messages, in order. |
| ContactValidation.AstralNamePasses | pages/api/contact.ts:41-47 | A name of one character above the Basic Multilingual Plane is two code units long and passes the name check. |
| ContactDelivery.ChooseChannel | pages/api/contact.ts:96-139 | SendGrid is chosen exactly when its key is set. SMTP is chosen exactly when the key is not set and host, user and password all are. Otherwise no channel is chosen. |
| ContactDelivery.SendEmail | pages/api/contact.ts:96-143 | `sendEmail` is true only when a channel is chosen. It is then true exactly when that channel's send succeeds. |
| ContactDelivery.SendGridFailureIsFinal | pages/api/contact.ts:96-143 | When the SendGrid send throws, nothing is sent, even if SMTP would have worked. |
| ContactDelivery.NothingConfigured | pages/api/contact.ts:114-139 | With no channel configured, `sendEmail` is false whatever the providers would do. |
| JsonFile.Load | pages/api/contact.ts:157-161 | A missing file reads as `[]`. A stored array reads as itself. A corrupt file fails. |
| ContactDelivery.ToMessage | pages/api/contact.ts:164-168 | The stored record carries the given id and timestamp and every field of the submission unchanged. |
| ContactDelivery.SaveMessage | pages/api/contact.ts:146-179 | `saveToFile` succeeds exactly when the directory is there, the file reads, and the write goes through. The file then holds the old records unchanged and in order, plus exactly one new record at the end. On failure the file is unchanged. |
| ContactDelivery.MessageStore.SaveToFile | pages/api/contact.ts:146-179 | The read, push and write-back method leaves the file and the result that `SaveMessage` describes. |
| ContactApi.Trimmed | pages/api/contact.ts:210-215 | The e-mail address is unchanged by the handler's trim. |
| ContactApi.Deliver | pages/api/contact.ts:217-243 | A valid submission gets 200 or 500 and never touches the rate table. The messages file changes only on the file path, that is when no e-mail was sent and the answer is 200 "file". |
| ContactApi.Respond | pages/api/contact.ts:181-250 | 405 exactly for a non-POST request, and then nothing changes. Every POST is counted by the limiter before validation. 429 exactly when the limiter refuses. 400 exactly when validation fails, with `details` = the error list. A null body gets 500 "Internal server error" and leaves the file alone. Statuses are limited to 200/400/405/429/500. The messages file changes only on a 200 "file" answer. |
| ContactApi.ValidGoesToDeliver | pages/api/contact.ts:201-243 | An admitted POST with a valid body is answered by the delivery tail: e-mail, then file, then 500, on the counted rate table. |
| ContactApi.EmailSentSkipsFile | pages/api/contact.ts:218-226 | When the e-mail goes out, the answer is 200 "email" and the file is not written. |
| ContactApi.FileFallback | pages/api/contact.ts:228-243 | Without e-mail, a successful write answers 200 "file" and leaves the appended file. A failed write answers 500 and leaves the file as it was. |
| ContactApi.NoChannelFirstMessage | pages/api/contact.ts:228-238 | No channel configured, no file yet, a valid admitted POST: the answer is 200 "file" and the file holds exactly the one trimmed record with its id and timestamp. |
| ContactApi.ExampleFieldsValid | pages/api/contact.ts:202-215 | The submission John Doe / john@example.com / general / "This is a test message" passes validation and is unchanged by trimming. |
| ContactApi.ContactEndpoint.constructor | pages/api/contact.ts:8 | The endpoint starts with an empty rate table (limit 5) and the given messages file. |
| ContactApi.ContactEndpoint.Handle | pages/api/contact.ts:181-250 | The handler updates the rate table and the messages file in place. It gives exactly the response and the new state that `Respond` gives. |
| NewsletterStore.Find | pages/api/newsletter.ts:55-57 | `find` with a throwing `toLowerCase`. No match means every record has a string address different from the key. A match means some record holds the key. A throw means some record's address is not a string. When all addresses are strings, a match happens exactly when one equals the key ignoring case. |
| NewsletterStore.FindSubscription | pages/api/newsletter.ts:55-57 | The scanning loop returns what `Find` does. |
| NewsletterStore.NewSubscription | pages/api/newsletter.ts:64-69 | The new record carries the given id and time and the status "active", and holds the address lower-cased, so it matches that address. |
| NewsletterStore.Subscribe | pages/api/newsletter.ts:37-80 | `saveSubscription` is true exactly when the directory is there, the file reads, and the address is either found or new with a successful write. On false the file is unchanged. The file only ever changes by appending one new record. |
| NewsletterStore.DuplicateIsNoOp | pages/api/newsletter.ts:54-61 | An address already on file, in any casing, gives true and writes nothing. |
| NewsletterStore.NewAddressAppends | pages/api/newsletter.ts:63-75 | A new address gives true. The file becomes the old records in order plus one record with the address lower-cased and status "active". |
| NewsletterStore.NewSubscriptionMatches | pages/api/newsletter.ts:56-66 | The stored record matches its address in every casing. |
| NewsletterStore.FindAppend | pages/api/newsletter.ts:55-71 | Appending a record changes the scan's answer only when the old records gave no match. |
| NewsletterStore.SubscribeTwice | pages/api/newsletter.ts:55-75 | Subscribe a new address, then the same address in any casing. Both calls give true, the second leaves the file unchanged, and the file holds exactly one record for the address. |
| NewsletterStore.SubscriptionStore.SaveSubscription | pages/api/newsletter.ts:37-80 | The read, scan, push and write-back method leaves the file and the result that `Subscribe` describes. |
| NewsletterApi.Respond | pages/api/newsletter.ts:82-129 | 405 exactly for non-POST, with nothing changed. Every POST is counted. Then 429 exactly when refused, and 400 exactly for a missing, non-string or ill-shaped address. A null body gets 500 "Internal server error". 200 exactly when `saveSubscription` succeeds, with the file it leaves. The file is unchanged on every other answer. |
| NewsletterApi.SubscribeTwiceThroughHandler | pages/api/newsletter.ts:97-117 | Two admitted requests for the same new address, in any casing, both get 200. The file then holds exactly one record for it. |
| NewsletterApi.NewsletterEndpoint.constructor | pages/api/newsletter.ts:6 | The endpoint starts with an empty rate table (limit 3) and the given subscriptions file. |
| NewsletterApi.NewsletterEndpoint.Handle | pages/api/newsletter.ts:82-129 | The handler updates the rate table and the subscriptions file in place. It gives exactly the response and the new state that `Respond` gives. |
| Sorting.SortBy | lib/blog.ts:47-53 | `sort` returns a permutation of its input in which each element may precede the next. |
| Sorting.NoRepeats | pages/blog/index.tsx:150 | A sequence in which no element occurs twice has no two equal positions. |
| Blog.StripMdx | lib/blog.ts:25 | Removes ".mdx" only when the name ends with it. The slug plus ".mdx" is then the name. |
| Blog.StripAppended | lib/blog.ts:80-81 | The slug of `slug + ".mdx"` is `slug` (round trip). |
| Blog.IsMdx | lib/blog.ts:22 | `endsWith('.mdx')`: a name that passes is some stem followed by ".mdx". |
| Blog.MdxFiles | lib/blog.ts:22 | Keeps exactly the listed names that end in ".mdx". |
| Blog.MdxFilesAppend | lib/blog.ts:79-80 | The filter keeps listing order. |
| Blog.Slugs | lib/blog.ts:81 | One slug per name, in the same order, each `StripMdx` of its name. |
| Blog.GetBlogSlugs | lib/blog.ts:77-82 | One slug per ".mdx" file, in listing order, each being its file name without ".mdx". A string is a slug exactly when that string plus ".mdx" is listed. |
| Blog.Defaults | lib/blog.ts:39-41 | Missing `tags` become `[]` and missing `featured` becomes false. |
| Blog.ToPost | lib/blog.ts:34-43 | A post's `featured` is true exactly when the front matter says `featured: true`. Its tags are the front matter's, or `[]`. Slug, title, date, excerpt, author and content are carried over unchanged. |
| Blog.Posts | lib/blog.ts:23-44 | One post per ".mdx" file, in listing order, each built by `ToPost` from the file's slug and front matter. |
| Blog.NewerFirst | lib/blog.ts:47-53 | The comparator: of two posts with the same date either may come first. Of two with different dates, only the one with the later date. |
| Blog.NewerFirstTotal | lib/blog.ts:47-53 | The comparator lets one of any two posts come first. |
| Blog.GetBlogPosts | lib/blog.ts:18-54 | Fails exactly when some ".mdx" file fails to read or parse. Otherwise it gives one post per ".mdx" file, nothing lost or duplicated, with each date no greater than the date before it. |
| Blog.GetBlogPost | lib/blog.ts:56-75 | Null exactly when `slug.mdx` fails to read or parse. Otherwise it gives the post built as the listing builds it. |
| Blog.SinglePostAgrees | lib/blog.ts:56-75 | Every post of the listing is what `getBlogPost` returns for its slug. |
| BlogIndex.AllTags | pages/blog/index.tsx:149 | The flattened tags are exactly the tags some post lists. |
| BlogIndex.Dedup | pages/blog/index.tsx:150 | `Array.from(new Set(...))` keeps the same elements, each once. |
| BlogIndex.AtMost | pages/blog/index.tsx:150 | The default `sort()` order: a string may precede itself, and between two different strings `a` may precede `b` exactly when `a < b`. |
| BlogIndex.UniqueTags | pages/blog/index.tsx:149-150 | A tag is listed exactly when some post has it. No tag appears twice. Each tag is strictly smaller than the next. |
| BlogIndex.FeaturedPost | pages/blog/index.tsx:22 | Absent exactly when no post is featured. Otherwise it is a featured post of the list. |
| BlogIndex.FeaturedPostIsFirst | pages/blog/index.tsx:22 | The featured post is the first featured one. |
| BlogIndex.RegularPosts | pages/blog/index.tsx:23 | Exactly the non-featured posts. |
| BlogIndex.RegularPostsAppend | pages/blog/index.tsx:23 | The regular posts keep the original order. |
| BlogIndex.HiddenFeatured | pages/blog/index.tsx:22-23 | A featured post after the first featured one appears in neither list. |
| BlogIndex.CountLabel | pages/blog/index.tsx:64 | The label is "post" exactly when there is one post, and "posts" otherwise. |

## Left out

- **Provider calls.** The SendGrid and nodemailer calls, the e-mail text, and the sender
  and recipient addresses (pages/api/contact.ts:80-109, 119-135) are foreign libraries.
  Only the channel choice and the succeed/throw outcome are modelled.
- **File system and JSON.** Existence checks, `mkdir`, reads and `JSON.parse` /
  `JSON.stringify` are reduced to the `FileState` and `StoreIo` inputs. A write that
  fails part-way is taken to leave the file as it was.
- **Front-matter parsing.** gray-matter's parsing and the directory read are inputs. A
  failing `readdirSync` is not modelled: the listing is given.
- **Clocks and ids.** `Date.now()` and `toISOString()` are parameters. Nothing is claimed
  about the uniqueness of ids.
- **Client key.** How the client key is taken from `x-forwarded-for` or the remote
  address is not modelled; the key is an opaque string.
- **Concurrency.** Concurrent requests sharing the table or the files are not modelled.
  Handlers run one after another.
- **The rate table never shrinks.** Its memory growth is not modelled.
- Text.ToLower: folds only the ASCII letters A-Z. The Unicode case mapping of
  `toLowerCase` is not modelled.
- Text.Less: compares Unicode scalar values. JavaScript compares UTF-16 code units.
  The two orders differ only for characters outside the Basic Multilingual Plane.
- Blog.GetBlogPosts: the model's order among posts with equal dates is that of its
  insertion sort. The comparator `a.date < b.date ? 1 : -1` never returns 0, so the
  engine's order for ties is not specified.
- Blog.GetBlogPosts: front matter missing `title`, `date`, `excerpt` or `author` is not
  modelled. Those fields are strings in `Matter`. gray-matter gives `undefined` for a
  missing key, and an `undefined` date compares false with `<` both ways. The source's
  sort then need not put the dates in order, so the ordering ensures holds only for front
  matter that has every field.
- **Front-matter values of other types.** Modelled as strings or `Option`s:
  - a `date` that YAML parses as a `Date` object, and then compares as a date;
  - a truthy non-array `tags`;
  - a truthy non-boolean `featured`.
- **Path handling.** `getBlogPost` builds a path from the slug with `path.join`. Path
  traversal through the slug is not modelled.
- **Out of scope.** React rendering, the passthrough endpoints
  (`pages/api/posts.ts`, `pages/api/seed.ts`, `pages/api/initiatives.ts`) and the UI
  components are not part of this model.
